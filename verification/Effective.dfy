/** The effective billing calendar of internal/cycle/effective.go: a base rule whose occurrences are
    pushed back by extensions. Each extension moves one logical boundary and every later one. */
module EffectiveSchedules {
  import opened Instants
  import opened BaseRules

  datatype DueExtension = DueExtension(base: int, days: int)

  datatype Result<+T> = Success(value: T) | Failure(error: BillingError)

  datatype BillingError =
    | InvalidExtension(base: int)
    | NotAnEffectiveDate(day: int)
    | NoUnpaidDate

  // ---- the plain shift map, independent of the order of the extensions

  /** Days by which a boundary on base day `day` has been postponed in total. */
  function ShiftAt(extensions: seq<DueExtension>, day: int): int {
    if extensions == [] then 0
    else (if extensions[0].base <= day then extensions[0].days else 0) + ShiftAt(extensions[1..], day)
  }

  /** Running total of the first `n` extensions, as the segment walks accumulate it. */
  function PrefixDays(extensions: seq<DueExtension>, n: nat): int
    requires n <= |extensions|
  {
    if n == 0 then 0 else PrefixDays(extensions, n - 1) + extensions[n - 1].days
  }

  predicate Ordered(extensions: seq<DueExtension>) {
    forall i, j :: 0 <= i < j < |extensions| ==> extensions[i].base <= extensions[j].base
  }

  predicate Positive(extensions: seq<DueExtension>) {
    forall i :: 0 <= i < |extensions| ==> 1 <= extensions[i].days <= 365
  }

  lemma {:induction false} ShiftAppend(a: seq<DueExtension>, b: seq<DueExtension>, day: int)
    ensures ShiftAt(a + b, day) == ShiftAt(a, day) + ShiftAt(b, day)
  {
    if a == [] {
      assert a + b == b;
    } else {
      assert (a + b)[1..] == a[1..] + b;
      ShiftAppend(a[1..], b, day);
    }
  }

  lemma {:induction false} ShiftMonotone(extensions: seq<DueExtension>, early: int, late: int)
    requires Positive(extensions) && early <= late
    ensures 0 <= ShiftAt(extensions, early) <= ShiftAt(extensions, late)
  {
    if extensions != [] {
      ShiftMonotone(extensions[1..], early, late);
    }
  }

  lemma {:induction false} ShiftOfSmallBases(extensions: seq<DueExtension>, day: int)
    requires forall i :: 0 <= i < |extensions| ==> extensions[i].base <= day
    ensures ShiftAt(extensions, day) == PrefixDays(extensions, |extensions|)
  {
    if extensions != [] {
      var n := |extensions| - 1;
      var front := extensions[..n];
      assert extensions == front + [extensions[n]];
      ShiftOfSmallBases(front, day);
      ShiftAppend(front, [extensions[n]], day);
      PrefixOfFront(extensions, n, n);
    }
  }

  lemma {:induction false} PrefixOfFront(extensions: seq<DueExtension>, n: nat, m: nat)
    requires m <= n <= |extensions|
    ensures PrefixDays(extensions[..n], m) == PrefixDays(extensions, m)
  {
    if m > 0 {
      PrefixOfFront(extensions, n, m - 1);
    }
  }

  lemma {:induction false} ShiftOfLargeBases(extensions: seq<DueExtension>, day: int)
    requires forall i :: 0 <= i < |extensions| ==> day < extensions[i].base
    ensures ShiftAt(extensions, day) == 0
  {
    if extensions != [] {
      ShiftOfLargeBases(extensions[1..], day);
    }
  }

  /** `day` lies between the n-th and the next extension boundary. */
  predicate InSegment(extensions: seq<DueExtension>, n: nat, day: int)
    requires n <= |extensions|
  {
    (n == 0 || extensions[n - 1].base <= day) && (n == |extensions| || day < extensions[n].base)
  }

  /** Inside its own segment a running total is the whole shift. */
  lemma ShiftInSegment(extensions: seq<DueExtension>, n: nat, day: int)
    requires Ordered(extensions) && n <= |extensions| && InSegment(extensions, n, day)
    ensures ShiftAt(extensions, day) == PrefixDays(extensions, n)
  {
    assert extensions == extensions[..n] + extensions[n..];
    ShiftAppend(extensions[..n], extensions[n..], day);
    ShiftOfSmallBases(extensions[..n], day);
    ShiftOfLargeBases(extensions[n..], day);
    PrefixOfFront(extensions, n, n);
  }

  // ---- sort.SliceStable by base date

  function InsertByBase(e: DueExtension, sorted: seq<DueExtension>): seq<DueExtension> {
    if sorted == [] || e.base <= sorted[0].base then [e] + sorted
    else [sorted[0]] + InsertByBase(e, sorted[1..])
  }

  function SortByBase(extensions: seq<DueExtension>): seq<DueExtension> {
    if extensions == [] then [] else InsertByBase(extensions[0], SortByBase(extensions[1..]))
  }

  lemma {:induction false} InsertKeepsMembers(e: DueExtension, sorted: seq<DueExtension>)
    ensures multiset(InsertByBase(e, sorted)) == multiset(sorted) + multiset{e}
  {
    if !(sorted == [] || e.base <= sorted[0].base) {
      InsertKeepsMembers(e, sorted[1..]);
      assert sorted == [sorted[0]] + sorted[1..];
    }
  }

  lemma {:induction false} InsertKeepsOrder(e: DueExtension, sorted: seq<DueExtension>)
    requires Ordered(sorted)
    ensures Ordered(InsertByBase(e, sorted))
  {
    if !(sorted == [] || e.base <= sorted[0].base) {
      var rest := InsertByBase(e, sorted[1..]);
      InsertKeepsOrder(e, sorted[1..]);
      InsertKeepsMembers(e, sorted[1..]);
      forall i | 0 <= i < |rest|
        ensures sorted[0].base <= rest[i].base
      {
        assert rest[i] in multiset(rest);
        assert rest[i] == e || rest[i] in sorted[1..];
      }
    }
  }

  lemma {:induction false} InsertAddsShift(e: DueExtension, sorted: seq<DueExtension>, day: int)
    ensures ShiftAt(InsertByBase(e, sorted), day) == ShiftAt([e], day) + ShiftAt(sorted, day)
  {
    if sorted == [] || e.base <= sorted[0].base {
      ShiftAppend([e], sorted, day);
    } else {
      InsertAddsShift(e, sorted[1..], day);
      ShiftAppend([sorted[0]], InsertByBase(e, sorted[1..]), day);
    }
  }

  /** Sorting orders the extensions, loses none of them and leaves the shift map alone. */
  lemma {:induction false} SortByBaseSorts(extensions: seq<DueExtension>)
    ensures Ordered(SortByBase(extensions))
    ensures multiset(SortByBase(extensions)) == multiset(extensions)
    ensures |SortByBase(extensions)| == |extensions|
  {
    if extensions != [] {
      SortByBaseSorts(extensions[1..]);
      InsertKeepsOrder(extensions[0], SortByBase(extensions[1..]));
      InsertKeepsMembers(extensions[0], SortByBase(extensions[1..]));
      assert extensions == [extensions[0]] + extensions[1..];
      MultisetLength(SortByBase(extensions), extensions);
    }
  }

  lemma {:induction false} SortKeepsShift(extensions: seq<DueExtension>, day: int)
    ensures ShiftAt(SortByBase(extensions), day) == ShiftAt(extensions, day)
  {
    if extensions != [] {
      SortKeepsShift(extensions[1..], day);
      InsertAddsShift(extensions[0], SortByBase(extensions[1..]), day);
    }
  }

  lemma MultisetLength<T>(a: seq<T>, b: seq<T>)
    requires multiset(a) == multiset(b)
    ensures |a| == |b|
  {
    assert |multiset(a)| == |a| && |multiset(b)| == |b|;
  }

  lemma MultisetMembers<T>(a: seq<T>, b: seq<T>)
    requires multiset(a) == multiset(b)
    ensures forall x :: x in a <==> x in b
  {
    forall x
      ensures x in a <==> x in b
    {
      assert x in a <==> x in multiset(a);
      assert x in b <==> x in multiset(b);
    }
  }

  // ---- the shifted schedule

  datatype BillingSchedule = BillingSchedule(rule: BaseRule, extensions: seq<DueExtension>) {

    ghost predicate Valid() {
      && rule.Valid()
      && Ordered(extensions)
      && Positive(extensions)
      && forall i :: 0 <= i < |extensions| ==> rule.IsDueDay(extensions[i].base)
    }

    /** The day on which the k-th logical period is due once every extension is applied. */
    function EffectiveDay(k: nat): int {
      rule.DueDay(k) + ShiftAt(extensions, rule.DueDay(k))
    }

    function EffectiveAt(k: nat): Instant {
      Instant(EffectiveDay(k), rule.TimeOfDay())
    }

    ghost predicate IsEffectiveDay(day: int) {
      exists k: nat :: EffectiveDay(k) == day
    }

    /** Postponing boundaries never reorders them. */
    lemma EffectiveDaysIncrease(i: nat, j: nat)
      requires Valid() && i < j
      ensures EffectiveDay(i) + (j - i) <= EffectiveDay(j)
    {
      rule.DueDaysSpread(i, j);
      ShiftMonotone(extensions, rule.DueDay(i), rule.DueDay(j));
    }

    lemma EffectiveDaysInjective(i: nat, j: nat)
      requires Valid() && EffectiveDay(i) == EffectiveDay(j)
      ensures i == j
    {
      if i < j {
        EffectiveDaysIncrease(i, j);
      } else if j < i {
        EffectiveDaysIncrease(j, i);
      }
    }

    // ---- what the walks must return, in terms of the plain map

    ghost predicate IsNext(now: Instant, k: nat) {
      && rule.First() <= k
      && now.Before(EffectiveAt(k))
      && forall j: nat :: rule.First() <= j < k ==> !now.Before(EffectiveAt(j))
    }

    ghost predicate IsNextDue(now: Instant, due: Instant) {
      exists k: nat :: IsNext(now, k) && due == EffectiveAt(k)
    }

    ghost predicate IsLast(now: Instant, k: nat) {
      && rule.First() <= k
      && !now.Before(EffectiveAt(k))
      && forall j: nat :: k < j ==> now.Before(EffectiveAt(j))
    }

    /** A schedule without extensions is its base rule. */
    lemma NoExtensions(now: Instant)
      requires extensions == []
      ensures forall k: nat :: EffectiveAt(k) == rule.DueAt(k)
      ensures forall k: nat :: IsNext(now, k) <==> rule.IsNext(now, k)
      ensures forall k: nat :: IsLast(now, k) <==> rule.IsLast(now, k)
    {
      forall k: nat
        ensures EffectiveAt(k) == rule.DueAt(k)
      {
      }
    }

    // ---- EffectiveDue and its inverse

    /** Maps one original trigger to its shifted moment; the loop stops at the first later boundary. */
    method EffectiveDue(base: Instant) returns (due: Instant)
      requires Valid()
      ensures due == base.AddDays(ShiftAt(extensions, base.day))
    {
      var days, index := 0, 0;
      while index < |extensions|
        invariant 0 <= index <= |extensions|
        invariant days == PrefixDays(extensions, index)
        invariant index > 0 ==> extensions[index - 1].base <= base.day
      {
        if extensions[index].base > base.day {
          break;
        }
        days := days + extensions[index].days;
        index := index + 1;
      }
      ShiftInSegment(extensions, index, base.day);
      due := base.AddDays(days);
    }

    /** Resolves an effective bill date to its logical boundary. It succeeds exactly on the image of
        the plain map, and the boundary found is the only one mapped there. */
    method BaseDueDate(date: int) returns (base: Result<int>)
      requires Valid()
      ensures base.Success? <==> IsEffectiveDay(date)
      ensures forall k: nat :: EffectiveDay(k) == date ==> base == Success(rule.DueDay(k))
      ensures base.Failure? ==> base.error == NotAnEffectiveDate(date)
    {
      hide ShiftAt, SortByBase;
      var days, index := 0, 0;
      while index <= |extensions|
        invariant 0 <= index <= |extensions| + 1
        invariant index <= |extensions| ==> days == PrefixDays(extensions, index)
        invariant forall k: nat :: EffectiveDay(k) == date ==> index <= |extensions|
        invariant forall k: nat :: EffectiveDay(k) == date && index > 0 ==> extensions[index - 1].base <= rule.DueDay(k)
      {
        var candidate := date - days;
        if (index == 0 || candidate >= extensions[index - 1].base) &&
           (index == |extensions| || candidate < extensions[index].base) {
          var valid := rule.IsDueDate(candidate);
          if valid {
            ShiftInSegment(extensions, index, candidate);
            ghost var k: nat :| rule.DueDay(k) == candidate;
            assert EffectiveDay(k) == date;
            forall j: nat | EffectiveDay(j) == date
              ensures rule.DueDay(j) == candidate
            {
              EffectiveDaysInjective(j, k);
            }
            return Success(candidate);
          }
        }
        forall k: nat | EffectiveDay(k) == date
          ensures index < |extensions| && extensions[index].base <= rule.DueDay(k)
        {
          if InSegment(extensions, index, rule.DueDay(k)) {
            ShiftInSegment(extensions, index, rule.DueDay(k));
          }
        }
        if index < |extensions| {
          days := days + extensions[index].days;
        }
        index := index + 1;
      }
      return Failure(NotAnEffectiveDate(date));
    }

    /** A date is billable when some occurrence falls on it: the plain rule decides when there are no
        extensions, the reverse lookup otherwise. */
    method IsDueDate(date: int) returns (due: bool)
      requires Valid()
      ensures due <==> IsEffectiveDay(date)
    {
      if |extensions| > 0 {
        var base := BaseDueDate(date);
        return base.Success?;
      }
      NoExtensions(Midnight(date));
      due := rule.IsDueDate(date);
      assert forall k: nat :: EffectiveDay(k) == rule.DueDay(k);
    }

    // ---- the segment walks

    method NextEffectiveDue(now: Instant) returns (due: Instant, ghost k: nat)
      requires Valid()
      ensures IsNext(now, k) && due == EffectiveAt(k)
      ensures IsNextDue(now, due)
    {
      hide ShiftAt, SortByBase;
      var days, index := 0, 0;
      while true
        invariant 0 <= index <= |extensions|
        invariant days == PrefixDays(extensions, index)
        invariant index > 0 ==> forall j: nat :: rule.First() <= j && rule.DueDay(j) < extensions[index - 1].base
                                  ==> !now.Before(EffectiveAt(j))
        decreases |extensions| - index
      {
        var cursor := now.AddDays(-days);
        if index > 0 {
          var lower := Midnight(extensions[index - 1].base);
          if cursor.Before(lower) {
            cursor := lower.JustBefore();
          }
        }
        var candidate, c := rule.NextDue(cursor);
        forall j: nat | rule.First() <= j < c && (index == |extensions| || rule.DueDay(j) < extensions[index].base)
          ensures !now.Before(EffectiveAt(j))
        {
          if index == 0 || extensions[index - 1].base <= rule.DueDay(j) {
            ShiftInSegment(extensions, index, rule.DueDay(j));
            assert !cursor.Before(rule.DueAt(j));
            assert cursor == now.AddDays(-days);
            assert !now.Before(EffectiveAt(j));
          } else {
            assert index > 0 && rule.DueDay(j) < extensions[index - 1].base;
            assert !now.Before(EffectiveAt(j));
          }
        }
        if index == |extensions| || candidate.day < extensions[index].base {
          ShiftInSegment(extensions, index, candidate.day);
          forall j: nat | rule.First() <= j < c
            ensures !now.Before(EffectiveAt(j))
          {
            rule.DueDaysIncrease(j, c);
          }
          return candidate.AddDays(days), c;
        }
        forall j: nat | rule.First() <= j && rule.DueDay(j) < extensions[index].base
          ensures !now.Before(EffectiveAt(j))
        {
          if c < j {
            rule.DueDaysIncrease(c, j);
          }
        }
        days := days + extensions[index].days;
        index := index + 1;
      }
    }

    /** Where the backward walk looks in one segment: `now` seen from that segment, kept inside it. */
    function LastCursor(now: Instant, index: nat): Instant
      requires index <= |extensions|
    {
      var cursor := now.AddDays(-PrefixDays(extensions, index));
      if index < |extensions| && !cursor.Before(Midnight(extensions[index].base))
      then Midnight(extensions[index].base).JustBefore()
      else cursor
    }

    lemma LastCursorReaches(now: Instant, index: nat, j: nat)
      requires Valid() && index <= |extensions|
      requires InSegment(extensions, index, rule.DueDay(j)) && !now.Before(EffectiveAt(j))
      ensures !LastCursor(now, index).Before(rule.DueAt(j))
    {
      ShiftInSegment(extensions, index, rule.DueDay(j));
    }

    lemma LastCandidateFits(now: Instant, index: nat, c: nat)
      requires Valid() && index <= |extensions|
      requires rule.IsLast(LastCursor(now, index), c)
      requires index == 0 || extensions[index - 1].base <= rule.DueDay(c)
      ensures InSegment(extensions, index, rule.DueDay(c))
      ensures EffectiveAt(c) == rule.DueAt(c).AddDays(PrefixDays(extensions, index))
      ensures !now.Before(EffectiveAt(c))
    {
      assert index < |extensions| ==> rule.DueDay(c) < extensions[index].base;
      ShiftInSegment(extensions, index, rule.DueDay(c));
    }

    /** One step of the backward walk: this segment's candidate `c` is as late as any occurrence in it. */
    lemma LastStep(now: Instant, index: nat, baseFound: bool, c: nat, j: nat)
      requires Valid() && index <= |extensions|
      requires rule.First() <= j && !now.Before(EffectiveAt(j)) && Walked(index + 1, j) && !Walked(index, j)
      requires baseFound ==> rule.IsLast(LastCursor(now, index), c)
      requires !baseFound ==> LastCursor(now, index).Before(rule.DueAt(rule.First()))
      ensures baseFound && j <= c && (index == 0 || extensions[index - 1].base <= rule.DueDay(c))
    {
      LastCursorReaches(now, index, j);
      if rule.First() < j {
        rule.DueDaysIncrease(rule.First(), j);
      }
      if j < c {
        rule.DueDaysIncrease(j, c);
      }
    }

    /** What one segment offers: its own last occurrence, if that falls inside it. */
    method LastInSegment(now: Instant, index: nat, days: int) returns (effective: Instant, found: bool, ghost c: nat)
      requires Valid() && index <= |extensions| && days == PrefixDays(extensions, index)
      ensures found ==> rule.First() <= c && effective == EffectiveAt(c) && !now.Before(effective)
      ensures forall j: nat ::
        rule.First() <= j && !now.Before(EffectiveAt(j)) && Walked(index + 1, j) && !Walked(index, j) ==>
          found && j <= c
    {
      var cursor := now.AddDays(-days);
      if index < |extensions| {
        var upper := Midnight(extensions[index].base);
        if !cursor.Before(upper) {
          cursor := upper.JustBefore();
        }
      }
      var candidate, baseFound;
      candidate, baseFound, c := rule.LastDue(cursor);
      forall j: nat | rule.First() <= j && !now.Before(EffectiveAt(j)) && Walked(index + 1, j) && !Walked(index, j)
        ensures baseFound && j <= c && (index == 0 || extensions[index - 1].base <= rule.DueDay(c))
      {
        LastStep(now, index, baseFound, c, j);
      }
      found := baseFound && (index == 0 || candidate.day >= extensions[index - 1].base);
      effective := candidate.AddDays(days);
      if found {
        LastCandidateFits(now, index, c);
      }
    }

    method LastEffectiveDue(now: Instant) returns (due: Instant, found: bool, ghost k: nat)
      requires Valid()
      ensures found ==> IsLast(now, k) && due == EffectiveAt(k)
      ensures !found ==> now.Before(EffectiveAt(rule.First()))
    {
      // `last` starts as the zero time, which every occurrence is after.
      var last: Option<Instant> := None;
      k := 0;
      var days, index := 0, 0;
      while index <= |extensions|
        invariant 0 <= index <= |extensions| + 1
        invariant index <= |extensions| ==> days == PrefixDays(extensions, index)
        invariant last.Some? ==> rule.First() <= k && last.value == EffectiveAt(k) && !now.Before(EffectiveAt(k))
        invariant forall j: nat :: rule.First() <= j && !now.Before(EffectiveAt(j)) && Walked(index, j)
                    ==> last.Some? && j <= k
      {
        var effective, inSegment, c := LastInSegment(now, index, days);
        if inSegment {
          LaterIffAfter(k, c);
          if last.None? || last.value.Before(effective) {
            last, k := Some(effective), c;
          }
        }
        if index < |extensions| {
          days := days + extensions[index].days;
        }
        index := index + 1;
      }
      if last.None? {
        return now, false, 0;
      }
      due, found := last.value, true;
    }

    lemma LaterIffAfter(i: nat, j: nat)
      requires Valid()
      ensures EffectiveAt(i).Before(EffectiveAt(j)) <==> i < j
    {
      if i < j {
        EffectiveDaysIncrease(i, j);
      } else if j < i {
        EffectiveDaysIncrease(j, i);
      }
    }

    /** The k-th occurrence belongs to one of the first `index` segments. */
    ghost predicate Walked(index: nat, k: nat)
      requires index <= |extensions| + 1
    {
      index > 0 && (index > |extensions| || rule.DueDay(k) < extensions[index - 1].base)
    }

    method NextDue(now: Instant) returns (due: Instant, ghost k: nat)
      requires Valid()
      ensures IsNext(now, k) && due == EffectiveAt(k)
      ensures IsNextDue(now, due)
    {
      if |extensions| > 0 {
        due, k := NextEffectiveDue(now);
      } else {
        due, k := rule.NextDue(now);
        NoExtensions(now);
      }
    }

    method LastDue(now: Instant) returns (due: Instant, found: bool, ghost k: nat)
      requires Valid()
      ensures found ==> IsLast(now, k) && due == EffectiveAt(k)
      ensures !found ==> now.Before(EffectiveAt(rule.First()))
    {
      if |extensions| > 0 {
        due, found, k := LastEffectiveDue(now);
      } else {
        due, found, k := rule.LastDue(now);
        NoExtensions(now);
      }
    }
  }

  /** Builds the effective view of a rule. It fails exactly when some extension is out of range or
      does not start on an occurrence of the base rule. */
  method WithExtensions(rule: BaseRule, extensions: seq<DueExtension>) returns (schedule: Result<BillingSchedule>)
    requires rule.Valid()
    ensures schedule.Success? <==> forall e :: e in extensions ==> 1 <= e.days <= 365 && rule.IsDueDay(e.base)
    ensures schedule.Success? ==>
      schedule.value == BillingSchedule(rule, SortByBase(extensions)) && schedule.value.Valid()
  {
    var ordered := SortByBase(extensions);
    SortByBaseSorts(extensions);
    MultisetMembers(ordered, extensions);
    for index := 0 to |ordered|
      invariant forall i :: 0 <= i < index ==> 1 <= ordered[i].days <= 365 && rule.IsDueDay(ordered[i].base)
    {
      var e := ordered[index];
      var valid := rule.IsDueDate(e.base);
      if !valid || e.days < 1 || e.days > 365 {
        assert e in extensions;
        return Failure(InvalidExtension(e.base));
      }
    }
    forall e | e in extensions
      ensures 1 <= e.days <= 365 && rule.IsDueDay(e.base)
    {
      assert e in ordered;
    }
    return Success(BillingSchedule(rule, ordered));
  }
}
