/** FirstUnpaid of internal/cycle/effective.go: the one billing period that is currently actionable. */
module UnpaidBoundary {
  import opened Collections
  import opened Instants
  import opened BaseRules
  import opened EffectiveSchedules

  // ---- what the answer is

  /** Period `k` has entered the ledger's view: it has not ended yet (or, while nothing was ever
      paid, it is still to come), or some bill lies at or before it, or an anchor pins it. */
  ghost predicate Started(s: BillingSchedule, now: Instant, paid: set<int>, anchors: set<int>, k: nat) {
    && s.rule.First() <= k
    && (|| Running(s, now, paid, k)
        || StartedByBill(s, paid, k)
        || StartedByAnchor(s, anchors, k))
  }

  ghost predicate Running(s: BillingSchedule, now: Instant, paid: set<int>, k: nat) {
    now.Before(s.EffectiveAt(if paid == {} then k else k + 1))
  }

  ghost predicate StartedByBill(s: BillingSchedule, paid: set<int>, k: nat) {
    exists day :: day in paid && day <= s.EffectiveDay(k)
  }

  ghost predicate StartedByAnchor(s: BillingSchedule, anchors: set<int>, k: nat) {
    exists anchor :: anchor in anchors && anchor <= s.rule.DueDay(k)
  }

  ghost predicate Open(s: BillingSchedule, now: Instant, paid: set<int>, anchors: set<int>, k: nat) {
    Started(s, now, paid, anchors, k) && s.EffectiveDay(k) !in paid
  }

  /** `k` is the earliest open period. */
  ghost predicate IsFirstUnpaid(s: BillingSchedule, now: Instant, paid: set<int>, anchors: set<int>, k: nat) {
    Open(s, now, paid, anchors, k) && forall j: nat :: j < k ==> !Open(s, now, paid, anchors, j)
  }

  function Anchors(s: BillingSchedule, historical: seq<int>): set<int> {
    (set anchor | anchor in historical) + (if |s.extensions| > 0 then {s.extensions[0].base} else {})
  }

  function Days(paid: seq<int>): set<int> {
    set day | day in paid
  }

  // ---- pigeonhole

  /** Bills that could still cover a period from `k` on. */
  function Ahead(s: BillingSchedule, paid: set<int>, k: nat): set<int> {
    set day | day in paid && s.EffectiveDay(k) <= day
  }

  lemma AheadShrinks(s: BillingSchedule, paid: set<int>, k: nat)
    requires s.Valid() && s.EffectiveDay(k) in paid
    ensures |Ahead(s, paid, k + 1)| < |Ahead(s, paid, k)|
  {
    s.EffectiveDaysIncrease(k, k + 1);
    SubsetSize(Ahead(s, paid, k + 1), Ahead(s, paid, k) - {s.EffectiveDay(k)});
  }

  lemma {:induction false} DaysSize(paid: seq<int>)
    ensures |Days(paid)| <= |paid|
  {
    if paid != [] {
      DaysSize(paid[1..]);
      assert Days(paid) == {paid[0]} + Days(paid[1..]);
    }
  }

  /** Among |paid| + 1 consecutive periods one is unpaid, so the search always ends. */
  lemma UnpaidExists(s: BillingSchedule, paid: set<int>, from: nat) returns (k: nat)
    requires s.Valid()
    ensures from <= k && s.EffectiveDay(k) !in paid
    ensures forall j: nat :: from <= j < k ==> s.EffectiveDay(j) in paid
    decreases |Ahead(s, paid, from)|
  {
    if s.EffectiveDay(from) !in paid {
      k := from;
    } else {
      AheadShrinks(s, paid, from);
      k := UnpaidExists(s, paid, from + 1);
    }
  }

  lemma StartedUpward(s: BillingSchedule, now: Instant, paid: set<int>, anchors: set<int>, i: nat, j: nat)
    requires s.Valid() && i <= j && Started(s, now, paid, anchors, i)
    ensures Started(s, now, paid, anchors, j)
  {
    if i < j {
      s.EffectiveDaysIncrease(i, j);
      s.EffectiveDaysIncrease(i + 1, j + 1);
      s.rule.DueDaysIncrease(i, j);
    }
  }

  lemma FirstUnpaidUnique(s: BillingSchedule, now: Instant, paid: set<int>, anchors: set<int>, i: nat, j: nat)
    requires IsFirstUnpaid(s, now, paid, anchors, i) && IsFirstUnpaid(s, now, paid, anchors, j)
    ensures i == j
  {
    assert !(i < j) && !(j < i);
  }

  /** Periods far enough ahead have always entered the ledger's view. */
  lemma LateStarted(s: BillingSchedule, now: Instant, paid: set<int>, anchors: set<int>, from: nat) returns (k: nat)
    requires s.Valid() && s.rule.First() <= from
    ensures from <= k && Started(s, now, paid, anchors, k)
    decreases now.day - s.EffectiveDay(from) + 1
  {
    s.EffectiveDaysIncrease(from, from + 1);
    if now.Before(s.EffectiveAt(from)) {
      assert Running(s, now, paid, from);
      k := from;
    } else {
      k := LateStarted(s, now, paid, anchors, from + 1);
    }
  }

  lemma LeastOpen(s: BillingSchedule, now: Instant, paid: set<int>, anchors: set<int>, bound: nat) returns (k: nat)
    requires Open(s, now, paid, anchors, bound)
    ensures IsFirstUnpaid(s, now, paid, anchors, k)
  {
    if j: nat :| j < bound && Open(s, now, paid, anchors, j) {
      k := LeastOpen(s, now, paid, anchors, j);
    } else {
      k := bound;
    }
  }

  /** There is always exactly one first unpaid period. */
  lemma FirstUnpaidExists(s: BillingSchedule, now: Instant, paid: set<int>, anchors: set<int>)
    requires s.Valid()
    ensures exists k: nat :: IsFirstUnpaid(s, now, paid, anchors, k)
    ensures forall i: nat, j: nat ::
      IsFirstUnpaid(s, now, paid, anchors, i) && IsFirstUnpaid(s, now, paid, anchors, j) ==> i == j
  {
    var late := LateStarted(s, now, paid, anchors, s.rule.First());
    var free := UnpaidExists(s, paid, late);
    StartedUpward(s, now, paid, anchors, late, free);
    var k := LeastOpen(s, now, paid, anchors, free);
    forall i: nat, j: nat | IsFirstUnpaid(s, now, paid, anchors, i) && IsFirstUnpaid(s, now, paid, anchors, j)
      ensures i == j
    {
      FirstUnpaidUnique(s, now, paid, anchors, i, j);
    }
  }

  ghost function FirstUnpaidPeriod(s: BillingSchedule, now: Instant, paid: set<int>, anchors: set<int>): (k: nat)
    requires s.Valid()
    ensures IsFirstUnpaid(s, now, paid, anchors, k)
    ensures forall j: nat :: IsFirstUnpaid(s, now, paid, anchors, j) ==> j == k
  {
    FirstUnpaidExists(s, now, paid, anchors);
    var k: nat :| IsFirstUnpaid(s, now, paid, anchors, k);
    k
  }

  // ---- how it is computed

  /** The first occurrence falling on `day` or later. */
  ghost predicate IsFirstOnOrAfter(s: BillingSchedule, day: int, k: nat) {
    && s.rule.First() <= k
    && day <= s.EffectiveDay(k)
    && forall j: nat :: s.rule.First() <= j < k ==> s.EffectiveDay(j) < day
  }

  lemma NextIsFirstOnOrAfter(s: BillingSchedule, day: int, k: nat)
    requires s.Valid() && s.IsNext(Midnight(day).JustBefore(), k)
    ensures IsFirstOnOrAfter(s, day, k)
  {
    forall j: nat | s.rule.First() <= j < k
      ensures s.EffectiveDay(j) < day
    {
      assert !Midnight(day).JustBefore().Before(s.EffectiveAt(j));
    }
  }

  /** `boundary` is the period the ledger alone starts from. */
  ghost predicate IsLedgerBoundary(s: BillingSchedule, now: Instant, paid: set<int>, boundary: nat) {
    && s.rule.First() <= boundary
    && forall j: nat :: s.rule.First() <= j ==>
         (boundary <= j <==> Running(s, now, paid, j) || StartedByBill(s, paid, j))
  }

  /** The earliest of the last due date and every bill gives the ledger's boundary. */
  lemma EarliestGivesBoundary(s: BillingSchedule, now: Instant, paid: set<int>, start: int, last: nat, boundary: nat)
    requires s.Valid() && paid != {}
    requires s.IsLast(now, last) || (s.IsNext(now, last) && last == s.rule.First())
    requires start <= s.EffectiveDay(last) && (start == s.EffectiveDay(last) || start in paid)
    requires forall day :: day in paid ==> start <= day
    requires IsFirstOnOrAfter(s, start, boundary)
    ensures IsLedgerBoundary(s, now, paid, boundary)
  {
    forall j: nat | s.rule.First() <= j
      ensures boundary <= j <==> Running(s, now, paid, j) || StartedByBill(s, paid, j)
    {
      RunningPeriods(s, now, last, j);
      if boundary < j {
        s.EffectiveDaysIncrease(boundary, j);
      }
      assert boundary <= j <==> start <= s.EffectiveDay(j);
      if last < j {
        s.EffectiveDaysIncrease(last, j);
      } else if j < last {
        s.EffectiveDaysIncrease(j, last);
      }
    }
  }

  /** The periods that have not ended are those from the last due one on. */
  lemma RunningPeriods(s: BillingSchedule, now: Instant, last: nat, j: nat)
    requires s.Valid() && s.rule.First() <= j
    requires s.IsLast(now, last) || (s.IsNext(now, last) && last == s.rule.First())
    ensures now.Before(s.EffectiveAt(j + 1)) <==> last <= j
  {
    s.LaterIffAfter(last, j + 1);
    s.LaterIffAfter(j + 1, last);
  }

  method LedgerBoundary(s: BillingSchedule, now: Instant, paid: seq<int>) returns (start: Instant, ghost boundary: nat)
    requires s.Valid()
    ensures start == s.EffectiveAt(boundary)
    ensures IsLedgerBoundary(s, now, Days(paid), boundary)
    ensures exists b: nat :: IsLedgerBoundary(s, now, Days(paid), b) && start == s.EffectiveAt(b)
  {
    var next, n := s.NextDue(now);
    start, boundary := next, n;
    forall j: nat | s.rule.First() <= j
      ensures n <= j <==> now.Before(s.EffectiveAt(j))
    {
      if n < j {
        s.EffectiveDaysIncrease(n, j);
      }
    }
    if |paid| == 0 {
      assert Days(paid) == {};
      return;
    }
    assert paid[0] in Days(paid);
    var last, found, l := s.LastDue(now);
    ghost var reference := n;
    if found {
      start := last;
      reference := l;
    }
    for index := 0 to |paid|
      invariant start.day <= s.EffectiveDay(reference)
      invariant start.day == s.EffectiveDay(reference) || start.day in paid
      invariant start == s.EffectiveAt(reference) || start == Midnight(start.day)
      invariant forall i :: 0 <= i < index ==> start.day <= paid[i]
    {
      if Midnight(paid[index]).Before(start) {
        start := Midnight(paid[index]);
      }
    }
    var day := start.day;
    start, boundary := s.NextDue(Midnight(day).JustBefore());
    NextIsFirstOnOrAfter(s, day, boundary);
    EarliestGivesBoundary(s, now, Days(paid), day, reference, boundary);
  }

  /** Moves the start back to the earliest anchor, if one is earlier. */
  method AnchoredStart(s: BillingSchedule, from: Instant, ghost ledger: nat, anchorDates: seq<int>)
    returns (start: Instant, ghost k: nat)
    requires s.Valid() && from == s.EffectiveAt(ledger) && s.rule.First() <= ledger
    ensures start == s.EffectiveAt(k) && s.rule.First() <= k
    ensures forall j: nat :: s.rule.First() <= j ==>
      (k <= j <==> ledger <= j || exists i :: 0 <= i < |anchorDates| && anchorDates[i] <= s.rule.DueDay(j))
  {
    start, k := from, ledger;
    for index := 0 to |anchorDates|
      invariant start == s.EffectiveAt(k) && s.rule.First() <= k
      invariant forall j: nat :: s.rule.First() <= j ==>
        (k <= j <==> ledger <= j || exists i :: 0 <= i < index && anchorDates[i] <= s.rule.DueDay(j))
    {
      var anchor, a := s.rule.NextDue(Midnight(anchorDates[index]).JustBefore());
      anchor := s.EffectiveDue(anchor);
      forall j: nat | s.rule.First() <= j
        ensures a <= j <==> anchorDates[index] <= s.rule.DueDay(j)
      {
        if a < j {
          s.rule.DueDaysIncrease(a, j);
        } else if j < a {
          assert !Midnight(anchorDates[index]).JustBefore().Before(s.rule.DueAt(j));
        }
      }
      s.LaterIffAfter(a, k);
      if anchor.Before(start) {
        start, k := anchor, a;
      }
    }
  }

  /** Tries one period after the other; as many tries as there are bills, and one more, always suffice. */
  method SearchUnpaid(s: BillingSchedule, from: Instant, ghost first: nat, paid: seq<int>)
    returns (due: Result<Instant>, ghost k: nat)
    requires s.Valid() && from == s.EffectiveAt(first) && s.rule.First() <= first
    ensures due == Success(s.EffectiveAt(k)) && first <= k && s.EffectiveDay(k) !in Days(paid)
    ensures forall j: nat :: first <= j < k ==> s.EffectiveDay(j) in Days(paid)
  {
    var start := from;
    k := first;
    ghost var days := Days(paid);
    DaysSize(paid);
    SubsetSize(Ahead(s, days, k), days);
    due := Failure(NoUnpaidDate);
    for try := 0 to |paid| + 1
      invariant start == s.EffectiveAt(k) && first <= k
      invariant try + |Ahead(s, days, k)| <= |paid|
      invariant forall j: nat :: first <= j < k ==> s.EffectiveDay(j) in days
    {
      if start.day !in paid {
        return Success(start), k;
      }
      AheadShrinks(s, days, k);
      ghost var n;
      start, n := s.NextDue(start);
      NextAfterItself(s, k, n);
      k := n;
    }
  }

  /** The moment of the earliest open period. No error path is reachable. */
  method FirstUnpaid(s: BillingSchedule, now: Instant, paid: seq<int>, historical: seq<int>)
    returns (due: Result<Instant>, ghost k: nat)
    requires s.Valid()
    ensures IsFirstUnpaid(s, now, Days(paid), Anchors(s, historical), k)
    ensures due == Success(s.EffectiveAt(k))
    ensures due == Success(s.EffectiveAt(FirstUnpaidPeriod(s, now, Days(paid), Anchors(s, historical))))
  {
    var start;
    ghost var ledger, first;
    start, ledger := LedgerBoundary(s, now, paid);
    var anchorDates := historical;
    if |s.extensions| > 0 {
      anchorDates := anchorDates + [s.extensions[0].base];
    }
    start, first := AnchoredStart(s, start, ledger, anchorDates);
    forall j: nat | s.rule.First() <= j
      ensures first <= j <==> Started(s, now, Days(paid), Anchors(s, historical), j)
    {
      assert ledger <= j <==> Running(s, now, Days(paid), j) || StartedByBill(s, Days(paid), j);
      AnchorsListed(s, historical, anchorDates, j);
    }
    due, k := SearchUnpaid(s, start, first, paid);
  }

  lemma AnchorsListed(s: BillingSchedule, historical: seq<int>, listed: seq<int>, k: nat)
    requires forall anchor :: anchor in Anchors(s, historical) <==> anchor in listed
    ensures StartedByAnchor(s, Anchors(s, historical), k) <==>
      exists i :: 0 <= i < |listed| && listed[i] <= s.rule.DueDay(k)
  {
    if StartedByAnchor(s, Anchors(s, historical), k) {
      var anchor :| anchor in Anchors(s, historical) && anchor <= s.rule.DueDay(k);
      var i :| 0 <= i < |listed| && listed[i] == anchor;
    }
    if exists i :: 0 <= i < |listed| && listed[i] <= s.rule.DueDay(k) {
      var i :| 0 <= i < |listed| && listed[i] <= s.rule.DueDay(k);
      assert listed[i] in Anchors(s, historical);
    }
  }

  lemma NextAfterItself(s: BillingSchedule, k: nat, n: nat)
    requires s.Valid() && s.rule.First() <= k && s.IsNext(s.EffectiveAt(k), n)
    ensures n == k + 1
  {
    s.LaterIffAfter(k, n);
    s.LaterIffAfter(k, k + 1);
  }
}
