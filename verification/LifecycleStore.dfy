/** The lifecycle transactions run against the stored tables, statement by statement. Each method commits
    exactly what the corresponding function of Lifecycles describes, or rolls everything back. */
module LifecycleStore {
  import opened Instants
  import opened Lifecycles
  import opened Transactions
  import Laws = LifecycleLaws
  import Money = LifecycleMoney
  import Releases = LifecycleReleases
  import Seats = LifecycleSeats

  /** Everything the whole-run theorems are about, together. */
  ghost predicate Orderly(db: Db, clock: Instant) {
    Laws.CaseRules(db) && Seats.Exclusive(db.subs, clock) && Money.Money(db) && Releases.Logged(db, clock)
  }

  /** A refused transaction keeps the tables orderly, and so does a committed one. */
  lemma StepStaysOrderly(db: Db, op: Op, now: Instant, clock: Instant)
    requires Orderly(db, clock) && !now.Before(clock)
    ensures Orderly(After(db, op, now), now)
  {
    Laws.StepKeepsCaseRules(db, op, now);
    Seats.ExclusiveLater(db.subs, clock, now);
    Seats.StepKeepsExclusive(db, op, now);
    Money.StepKeepsMoney(db, op, now);
    Releases.StepKeepsLog(db, op, now, clock);
  }

  class Store {
    var accounts: map<int, Account>
    var seats: map<int, int>
    var subs: map<int, Subscription>
    var cases: map<int, Case>
    var bills: map<int, Bill>
    var nextSeat: int
    var nextSub: int
    var nextCase: int
    var nextBill: int
    ghost var departures: seq<Departure>

    // The moment of the latest transaction.
    ghost var clock: Instant

    ghost function Snapshot(): Db
      reads this
    {
      Db(accounts, seats, subs, cases, bills, nextSeat, nextSub, nextCase, nextBill, departures)
    }

    ghost predicate Valid()
      reads this
    {
      Orderly(Snapshot(), clock)
    }

    constructor (ghost start: Instant)
      ensures Valid() && clock == start && Snapshot() == EmptyDb()
    {
      accounts, seats, subs, cases, bills := map[], map[], map[], map[], map[];
      nextSeat, nextSub, nextCase, nextBill := 1, 1, 1, 1;
      departures := [];
      clock := start;
    }

    method Rollback(
      oldAccounts: map<int, Account>, oldSubs: map<int, Subscription>, oldCases: map<int, Case>, oldNextCase: int,
      ghost oldDepartures: seq<Departure>)
      modifies `accounts, `subs, `cases, `nextCase, `departures
      ensures Snapshot() == old(Snapshot()).(accounts := oldAccounts, subs := oldSubs, cases := oldCases,
                                             nextCase := oldNextCase, departures := oldDepartures)
    {
      accounts, subs, cases, nextCase, departures := oldAccounts, oldSubs, oldCases, oldNextCase, oldDepartures;
    }

    // ---- queries

    /** What the queries of a transaction read. */
    function Tables(): (db: Db)
      reads this
      ensures db == Snapshot().(departures := [])
    {
      Db(accounts, seats, subs, cases, bills, nextSeat, nextSub, nextCase, nextBill, [])
    }

    method EnsureRefundWithinPayment(id: int, proposed: int) returns (error: Option<DbError>)
      requires id in cases
      ensures error == RefundCheck(Snapshot(), id, proposed)
    {
      var c := cases[id];
      if HasFuturePaid(Tables(), c.sub, c.eventDay) { return Some(HasPrepaidPeriods); }
      var cents := proposed;
      if cents < 0 { cents := c.refundCents; }
      if cents < 0 { return Some(RefundExceedsPayment); }
      if c.bill.None? { return None; }
      var completed := RefundTotal(cases, c.bill.value, id, nextCase);
      if completed > c.paidCents || cents > c.paidCents - completed { return Some(RefundExceedsPayment); }
      return None;
    }

    // ---- rows

    method InsertCase(account: int, sub: int, day: int, warrantyDays: int, source: Source)
      modifies `cases, `nextCase
      ensures Snapshot()
        == Lifecycles.InsertCase(old(Snapshot()), NewCase(old(Snapshot()), account, sub, day, warrantyDays, source))
    {
      var row := Case(account, sub, None, day, 0, 0, source, Review);
      var bill := LatestBill(bills, sub, day, nextBill);
      if bill.Some? {
        var paid := bills[bill.value].amountCents;
        var used := day - bills[bill.value].due;
        if used < 0 { used := 0; }
        if used > warrantyDays { used := warrantyDays; }
        row := row.(bill := bill, paidCents := paid,
          refundCents := ProratedRefund(paid, warrantyDays - used, warrantyDays),
                    status := Pending);
      }
      cases := cases[nextCase := row];
      nextCase := nextCase + 1;
    }

    method DeleteOpenCancellation(id: int)
      modifies `cases
      ensures cases == DropCancellation(old(cases), Some(id))
    {
      if id in cases && cases[id].source == CustomerCancellation && cases[id].Open() {
        cases := cases - {id};
      }
    }

    /** archiveSubscriptionInTransaction. */
    method ArchiveInTransaction(
        id: int, at: Instant, preserve: Option<int>, freeze: Option<Instant>) returns (outcome: Outcome<()>)
      modifies `subs, `cases
      ensures Committed(old(Snapshot()), Snapshot(), ArchiveRow(old(Snapshot()), id, at, preserve, freeze), outcome)
    {
      if id !in subs || subs[id].deletedAt.Some? { return Refused(NotFound); }
      var s := subs[id];
      if preserve.Some? && s.cancelCase != preserve { return Refused(AlreadyProcessed); }
      var row := s.(deferred := false, cancelExpires := None, cancelCase := None);
      if row.archivedAt.None? { row := row.(archivedAt := Some(at)); }
      row := row.(frozenUntil := if row.seat.Some? then freeze else None);
      subs := subs[id := row];
      if s.cancelCase.Some? && s.cancelCase != preserve {
        DeleteOpenCancellation(s.cancelCase.value);
      }
      return Done(());
    }

    /** teamSeatFreezeDeadline followed by the archive it decides about. */
    method ArchiveThroughAllowance(id: int, at: Instant, preserve: Option<int>, configured: Instant)
      returns (outcome: Outcome<()>)
      modifies `subs, `cases, `departures
      ensures Committed(old(Snapshot()), Snapshot(), Depart(old(Snapshot()), id, at, preserve, configured), outcome)
    {
      if id !in subs || !subs[id].Active() { return Refused(NotFound); }
      var account := SeatAccount(Tables(), subs[id]);
      var freeze: Option<Instant> := None;
      assert account.Some? ==>
        RecentDepartures(Tables(), account.value, id, at) == RecentDepartures(Snapshot(), account.value, id, at);
      if account.Some? && |RecentDepartures(Tables(), account.value, id, at)| >= IMMEDIATE_RELEASES_PER_WINDOW {
        freeze := Some(configured);
      }
      outcome := ArchiveInTransaction(id, at, preserve, freeze);
      if outcome.Done? && account.Some? {
        departures := departures + [Departure(id, account.value, at, freeze.None?)];
      }
    }

    // ---- archive, freeze, delete

    method ArchiveSubscription(id: int, at: Instant, freezeUntil: Option<Instant>, expiry: Option<bool>)
      returns (outcome: Outcome<()>)
      requires Valid() && !at.Before(clock)
      modifies this
      ensures Committed(old(Snapshot()), Snapshot(),
        Lifecycles.ArchiveSubscription(old(Snapshot()), id, at, freezeUntil, expiry), outcome)
      ensures Valid() && clock == at
    {
      hide Orderly;
      StepStaysOrderly(Snapshot(), Archive(id, freezeUntil, expiry), at, clock);
      clock := at;
      if id !in subs { return Refused(NotFound); }
      if subs[id].deferred { return Refused(RenewalDeferred); }
      if expiry.Some? {
        if HasFuturePaid(Tables(), id, at.day) { return Refused(HasPrepaidPeriods); }
        if !expiry.value { return Refused(StateChanged); }
      }
      if HasOpenCase(cases, id) { return Refused(OpenAfterSales); }
      if freezeUntil.Some? {
        outcome := ArchiveThroughAllowance(id, at, None, freezeUntil.value);
      } else {
        outcome := ArchiveInTransaction(id, at, None, None);
      }
    }

    method UpdateFrozenUntil(id: int, until: Instant, now: Instant) returns (outcome: Outcome<()>)
      requires Valid() && !now.Before(clock)
      modifies `subs, `clock
      ensures Committed(old(Snapshot()), Snapshot(),
        Lifecycles.UpdateFrozenUntil(old(Snapshot()), id, until, now), outcome)
      ensures Valid() && clock == now
    {
      hide Orderly;
      StepStaysOrderly(Snapshot(), EditFreeze(id, until), now, clock);
      clock := now;
      outcome := Refused(NotFound);
      if id in subs && subs[id].deletedAt.None? && subs[id].archivedAt.Some? && subs[id].seat.Some?
         && subs[id].frozenUntil.Some? && now.Before(subs[id].frozenUntil.value) {
        subs := subs[id := subs[id].(frozenUntil := Some(until))];
        outcome := Done(());
      }
    }

    method SoftDelete(id: int, now: Instant) returns (outcome: Outcome<()>)
      requires Valid() && !now.Before(clock)
      modifies `subs, `clock
      ensures Committed(old(Snapshot()), Snapshot(), Lifecycles.SoftDelete(old(Snapshot()), id, now), outcome)
      ensures Valid() && clock == now
    {
      hide Orderly;
      StepStaysOrderly(Snapshot(), Delete(id), now, clock);
      clock := now;
      outcome := Refused(NotFound);
      if id in subs && subs[id].deletedAt.None? && subs[id].archivedAt.Some?
         && (subs[id].frozenUntil.None? || !now.Before(subs[id].frozenUntil.value)) {
        subs := subs[id := subs[id].(deletedAt := Some(now))];
        outcome := Done(());
      }
    }

    // ---- bans

    /** Marks the account and opens one case for every active customer on it; `outcome` counts the new cases. */
    method BanAccount(account: int, day: int, warrantyDays: int) returns (outcome: Outcome<int>)
      requires Valid()
      modifies this
      ensures Committed(old(Snapshot()), Snapshot(),
        Lifecycles.BanAccount(old(Snapshot()), account, day, warrantyDays), outcome)
      ensures outcome.Done? ==> outcome.value == nextCase - old(nextCase)
      ensures Valid() && clock == old(clock)
    {
      hide Orderly;
      StepStaysOrderly(Snapshot(), Ban(account, day, warrantyDays), clock, clock);
      if account !in accounts { return Refused(NotFound); }
      var accounts0, subs0, cases0, nextCase0 := accounts, subs, cases, nextCase;
      ghost var departures0 := departures;
      var bannedDay := day;
      if accounts[account].bannedOn.Some? {
        bannedDay := accounts[account].bannedOn.value;
      } else {
        accounts := accounts[account := accounts[account].(bannedOn := Some(day))];
      }
      assert Snapshot()
        == old(Snapshot()).(accounts := old(accounts)[account := old(accounts)[account].(bannedOn := Some(bannedDay))]);
      outcome := BanAll(account, bannedDay, warrantyDays);
      if outcome.Refused? { Rollback(accounts0, subs0, cases0, nextCase0, departures0); }
    }

    /** One customer after the other; the caller takes a refused ban back as a whole. */
    method BanAll(account: int, day: int, warrantyDays: int) returns (outcome: Outcome<int>)
      modifies `subs, `cases, `nextCase
      ensures BanFrom(old(Snapshot()), account, day, warrantyDays, 0)
        == if outcome.Done? then Done(Snapshot()) else Refused(outcome.error)
      ensures outcome.Done? ==> outcome.value == nextCase - old(nextCase)
    {
      ghost var spec := BanFrom(Snapshot(), account, day, warrantyDays, 0);
      var inserted := 0;
      var id := 0;
      while id < nextSub
        invariant BanFrom(Snapshot(), account, day, warrantyDays, id) == spec
        invariant inserted == nextCase - old(nextCase)
        decreases nextSub - id
      {
        if Affected(Tables(), account, id) {
          var one := BanSubscription(account, id, day, warrantyDays);
          if one.Refused? { return one; }
          inserted := inserted + one.value;
        }
        id := id + 1;
      }
      return Done(inserted);
    }

    method BanSubscription(account: int, id: int, day: int, warrantyDays: int) returns (outcome: Outcome<int>)
      requires id in subs
      modifies `subs, `cases, `nextCase
      ensures Committed(old(Snapshot()), Snapshot(), BanOne(old(Snapshot()), account, id, day, warrantyDays), outcome)
      ensures outcome.Done? ==> outcome.value == nextCase - old(nextCase)
    {
      if subs[id].deferred { return Refused(RenewalDeferred); }
      if HasFuturePaid(Tables(), id, day) { return Refused(HasPrepaidPeriods); }
      if subs[id].cancelCase.Some? {
        DeleteOpenCancellation(subs[id].cancelCase.value);
        subs := subs[id := subs[id].(cancelExpires := None, cancelCase := None)];
      }
      assert Snapshot() == Superseded(old(Snapshot()), id);
      if CaseRecorded(cases, account, id, day) { return Done(0); }
      InsertCase(account, id, day, warrantyDays, AccountBan);
      return Done(1);
    }

    // ---- cancellations

    method RequestCancellation(
        id: int, requestedAt: Instant, expiresAt: Instant, warrantyDays: int) returns (outcome: Outcome<int>)
      requires Valid() && !requestedAt.Before(clock)
      modifies this
      ensures Committed(old(Snapshot()), Snapshot(),
        Lifecycles.RequestCancellation(old(Snapshot()), id, requestedAt, expiresAt, warrantyDays), outcome)
      ensures outcome.Done? ==> outcome.value == old(nextCase)
      ensures Valid() && clock == requestedAt
    {
      hide Orderly;
      StepStaysOrderly(Snapshot(), RequestCancel(id, expiresAt, warrantyDays), requestedAt, clock);
      clock := requestedAt;
      if id !in subs { return Refused(NotFound); }
      if subs[id].deferred { return Refused(RenewalDeferred); }
      if !subs[id].Active() { return Refused(NotFound); }
      if subs[id].cancelCase.Some? { return Refused(CancellationPending); }
      if HasOpenCase(cases, id) { return Refused(CaseConflict); }
      var account := SeatAccount(Tables(), subs[id]);
      if account.None? { return Refused(NoOwnerAccount); }
      if HasFuturePaid(Tables(), id, requestedAt.day) { return Refused(HasPrepaidPeriods); }
      if CaseRecorded(cases, account.value, id, requestedAt.day) { return Refused(CaseConflict); }
      var caseId := nextCase;
      InsertCase(account.value, id, requestedAt.day, warrantyDays, CustomerCancellation);
      subs := subs[id := subs[id].(cancelExpires := Some(expiresAt), cancelCase := Some(caseId))];
      return Done(caseId);
    }

    /** First the expired cases go, then the subscriptions forget them; `restored` counts the latter. */
    method RestoreExpired(now: Instant) returns (restored: nat)
      requires Valid() && !now.Before(clock)
      modifies `subs, `cases, `clock
      ensures Snapshot() == Lifecycles.RestoreExpired(old(Snapshot()), now)
      ensures restored == |set s | s in old(subs) && Expired(old(subs)[s], now)|
      ensures Valid() && clock == now
    {
      hide Orderly;
      StepStaysOrderly(Snapshot(), ExpireCancellations, now, clock);
      clock := now;
      restored := ForgetExpired(now);
    }

    method ForgetExpired(now: Instant) returns (restored: nat)
      modifies `subs, `cases
      ensures Snapshot() == Lifecycles.RestoreExpired(old(Snapshot()), now)
      ensures restored == |set s | s in old(subs) && Expired(old(subs)[s], now)|
    {
      cases := map c | c in cases && !ExpiredCase(Tables(), c, now) :: cases[c];
      var expired := set s | s in subs && Expired(subs[s], now);
      subs := map s | s in subs ::
        if s in expired then subs[s].(cancelExpires := None, cancelCase := None, frozenUntil := None) else subs[s];
      restored := |expired|;
    }

    method CompleteCancellation(id: int, at: Instant, freezeUntil: Instant) returns (outcome: Outcome<()>)
      modifies `accounts, `subs, `cases, `nextCase, `departures
      ensures Committed(old(Snapshot()), Snapshot(),
        Lifecycles.CompleteCancellation(old(Snapshot()), id, at, freezeUntil), outcome)
    {
      if id !in cases { return Refused(NotFound); }
      if cases[id].source != CustomerCancellation || !cases[id].Open() { return Refused(AlreadyProcessed); }
      var blocked := EnsureRefundWithinPayment(id, -1);
      if blocked.Some? { return Refused(blocked.value); }
      var accounts0, subs0, cases0, nextCase0 := accounts, subs, cases, nextCase;
      ghost var departures0 := departures;
      cases := cases[id := cases[id].(status := Refunded)];
      outcome := ArchiveThroughAllowance(cases[id].sub, at, Some(id), freezeUntil);
      if outcome.Refused? { Rollback(accounts0, subs0, cases0, nextCase0, departures0); }
    }

    // ---- after-sales cases

    method UpdateCase(id: int, refundCents: int) returns (outcome: Outcome<()>)
      requires Valid()
      modifies this
      ensures Committed(old(Snapshot()), Snapshot(), Lifecycles.UpdateCase(old(Snapshot()), id, refundCents), outcome)
      ensures Valid() && clock == old(clock)
    {
      hide Orderly;
      StepStaysOrderly(Snapshot(), EditCase(id, refundCents), clock, clock);
      if refundCents < 0 { return Refused(InvalidAmount); }
      if id !in cases { return Refused(NotFound); }
      if !cases[id].Open() { return Refused(AlreadyProcessed); }
      var blocked := EnsureRefundWithinPayment(id, refundCents);
      if blocked.Some? { return Refused(blocked.value); }
      cases := cases[id := cases[id].(refundCents := refundCents)];
      return Done(());
    }

    method SetRefunded(id: int, refunded: bool, at: Instant, freezeUntil: Instant) returns (outcome: Outcome<()>)
      requires Valid() && !at.Before(clock)
      modifies this
      ensures Committed(old(Snapshot()), Snapshot(),
        Lifecycles.SetRefunded(old(Snapshot()), id, refunded, at, freezeUntil), outcome)
      ensures Valid() && clock == at
    {
      hide Orderly;
      StepStaysOrderly(Snapshot(), MarkRefunded(id, refunded, freezeUntil), at, clock);
      clock := at;
      if id !in cases { return Refused(NotFound); }
      if cases[id].source == CustomerCancellation {
        if !refunded { return Refused(AlreadyProcessed); }
        outcome := CompleteCancellation(id, at, freezeUntil);
      } else if refunded {
        outcome := RefundBan(id, at);
      } else {
        outcome := UndoRefund(id, at);
      }
    }

    method RefundBan(id: int, at: Instant) returns (outcome: Outcome<()>)
      requires id in cases
      modifies `accounts, `subs, `cases, `nextCase, `departures
      ensures Committed(old(Snapshot()), Snapshot(), Lifecycles.RefundBan(old(Snapshot()), id, at), outcome)
    {
      var blocked := EnsureRefundWithinPayment(id, -1);
      if blocked.Some? { return Refused(blocked.value); }
      if !cases[id].Open() { return Refused(NotFound); }
      var cases0 := cases;
      cases := cases[id := cases[id].(status := Refunded)];
      var sub := cases[id].sub;
      if sub !in subs || !subs[sub].Active() {
        Rollback(accounts, subs, cases0, nextCase, departures);
        return Refused(NotFound);
      }
      var cancellation := subs[sub].cancelCase;
      subs := subs[sub :=
        subs[sub].(archivedAt := Some(at), cancelExpires := None, cancelCase := None, frozenUntil := None)];
      if cancellation.Some? && cancellation.value != id {
        DeleteOpenCancellation(cancellation.value);
      }
      return Done(());
    }

    method UndoRefund(id: int, now: Instant) returns (outcome: Outcome<()>)
      requires id in cases
      modifies `accounts, `subs, `cases, `nextCase, `departures
      ensures Committed(old(Snapshot()), Snapshot(), Lifecycles.UndoRefund(old(Snapshot()), id, now), outcome)
    {
      if cases[id].status != Refunded { return Refused(NotFound); }
      var cases0 := cases;
      cases := cases[id := cases[id].(status := if cases[id].bill.None? then Review else Pending)];
      var refusal := UndoRefusal(Tables(), cases[id].sub, now);
      if refusal.Some? {
        Rollback(accounts, subs, cases0, nextCase, departures);
        return Refused(refusal.value);
      }
      subs := subs[cases[id].sub := subs[cases[id].sub].(archivedAt := None)];
      return Done(());
    }

    method Reassign(id: int, account: int, seat: Option<int>, now: Instant) returns (outcome: Outcome<()>)
      requires Valid() && !now.Before(clock)
      modifies this
      ensures Committed(old(Snapshot()), Snapshot(),
        Lifecycles.Reassign(old(Snapshot()), id, account, seat, now), outcome)
      ensures Valid() && clock == now
    {
      hide Orderly;
      StepStaysOrderly(Snapshot(), MoveAffected(id, account, seat), now, clock);
      clock := now;
      if id !in cases { return Refused(NotFound); }
      if cases[id].source == CustomerCancellation { return Refused(NotReassignable); }
      if !cases[id].Open() { return Refused(AlreadyProcessed); }
      var sub := cases[id].sub;
      if sub !in subs || !subs[sub].Active() || account !in accounts { return Refused(NotFound); }
      if accounts[account].paused { return Refused(AccountPaused); }
      if accounts[account].bannedOn.Some? { return Refused(AccountBanned); }
      var target := seat;
      if target.None? { target := FindFreeSeat(account, now); }
      if target.None? || target.value !in seats || seats[target.value] != account {
        return Refused(SeatReferenceMissing);
      }
      if SeatTaken(subs, target.value, sub, now) { return Refused(SeatOccupied); }
      if target == subs[sub].seat { return Refused(SeatUnchanged); }
      subs := subs[sub := subs[sub].(seat := target)];
      cases := cases[id := cases[id].(status := Reassigned)];
      return Done(());
    }

    method FindFreeSeat(account: int, now: Instant) returns (free: Option<int>)
      ensures free == FirstFreeSeat(Snapshot(), account, now, 0)
    {
      SeatSearchIgnoresLog(Snapshot(), [], account, now, 0);
      free := FirstFreeSeat(Tables(), account, now, 0);
    }

    // ---- renewal deferral

    method DeferRenewal(id: int, current: bool) returns (outcome: Outcome<()>)
      requires Valid()
      modifies `subs
      ensures Committed(old(Snapshot()), Snapshot(), Lifecycles.DeferRenewal(old(Snapshot()), id, current), outcome)
      ensures Valid() && clock == old(clock)
    {
      hide Orderly;
      StepStaysOrderly(Snapshot(), Defer(id, current), clock, clock);
      if !Deferrable(Tables(), id) { return Refused(NotFound); }
      if !current || subs[id].deferred { return Refused(StateChanged); }
      subs := subs[id := subs[id].(deferred := true)];
      return Done(());
    }

    method RestoreRenewal(id: int) returns (outcome: Outcome<()>)
      requires Valid()
      modifies `subs
      ensures Committed(old(Snapshot()), Snapshot(), Lifecycles.RestoreRenewal(old(Snapshot()), id), outcome)
      ensures Valid() && clock == old(clock)
    {
      hide Orderly;
      StepStaysOrderly(Snapshot(), Restore(id), clock, clock);
      if !Deferrable(Tables(), id) { return Refused(NotFound); }
      if subs[id].deferred { subs := subs[id := subs[id].(deferred := false)]; }
      assert subs == old(subs)[id := old(subs)[id].(deferred := false)];
      return Done(());
    }

    /** Confirms a batch of removals at one moment; one refusal takes the whole batch back. */
    method CompleteDeferred(items: seq<Removal>, now: Instant, freezeDays: int) returns (outcome: Outcome<()>)
      requires Valid() && !now.Before(clock)
      modifies this
      ensures Committed(old(Snapshot()), Snapshot(),
        Lifecycles.CompleteDeferred(old(Snapshot()), items, now, freezeDays), outcome)
      ensures Valid() && clock == now
    {
      hide Orderly;
      StepStaysOrderly(Snapshot(), Remove(items, freezeDays), now, clock);
      clock := now;
      if items == [] { return Refused(NothingSelected); }
      var accounts0, subs0, cases0, nextCase0 := accounts, subs, cases, nextCase;
      ghost var departures0 := departures;
      var refusal := RemoveAll(items, now, now.AddDays(freezeDays));
      if refusal.Some? {
        Rollback(accounts0, subs0, cases0, nextCase0, departures0);
        return Refused(refusal.value);
      }
      return Done(());
    }

    /** One removal after the other; the caller takes a refused batch back as a whole. */
    method RemoveAll(items: seq<Removal>, now: Instant, freezeUntil: Instant) returns (refusal: Option<DbError>)
      modifies `subs, `cases, `departures
      ensures RemoveFrom(old(Snapshot()), items, 0, now, freezeUntil)
        == if refusal.None? then Done(Snapshot()) else Refused(refusal.value)
    {
      ghost var before := Snapshot();
      var seen: set<int> := {};
      var k := 0;
      while k < |items|
        invariant 0 <= k <= |items|
        invariant forall x :: x in seen <==> exists j :: 0 <= j < k && items[j].sub == x
        invariant RemoveFrom(before, items, 0, now, freezeUntil) == RemoveFrom(Snapshot(), items, k, now, freezeUntil)
      {
        refusal := RemovalBlocked(items, k, seen);
        if refusal.Some? { return; }
        var gone := ArchiveThroughAllowance(items[k].sub, now, None, freezeUntil);
        if gone.Refused? { return Some(gone.error); }
        seen := seen + {items[k].sub};
        k := k + 1;
      }
      return None;
    }

    method RemovalBlocked(items: seq<Removal>, k: nat, seen: set<int>) returns (error: Option<DbError>)
      requires k < |items|
      requires forall x :: x in seen <==> exists j :: 0 <= j < k && items[j].sub == x
      ensures error ==
        if exists j :: 0 <= j < k && items[j].sub == items[k].sub then Some(RepeatedItem)
        else if !Deferrable(Snapshot(), items[k].sub) then Some(NotFound)
        else if !items[k].current || !subs[items[k].sub].deferred then Some(StateChanged)
        else None
    {
      if items[k].sub in seen { return Some(RepeatedItem); }
      if !Deferrable(Tables(), items[k].sub) { return Some(NotFound); }
      if !items[k].current || !subs[items[k].sub].deferred { return Some(StateChanged); }
      return None;
    }

    // ---- customers and seats

    method InsertSubscription(seat: Option<int>, now: Instant) returns (outcome: Outcome<int>)
      requires Valid() && !now.Before(clock)
      modifies `subs, `nextSub, `clock
      ensures Committed(old(Snapshot()), Snapshot(), Lifecycles.InsertSubscription(old(Snapshot()), seat, now), outcome)
      ensures outcome.Done? ==> outcome.value == old(nextSub)
      ensures Valid() && clock == now
    {
      hide Orderly;
      StepStaysOrderly(Snapshot(), Insert(seat), now, clock);
      clock := now;
      if seat.Some? {
        var closed := SeatAvailability(Tables(), seat.value);
        if closed.Some? { return Refused(closed.value); }
        if SeatTaken(subs, seat.value, -1, now) { return Refused(SeatOccupied); }
      }
      subs := subs[nextSub := Subscription(seat, None, None, None, None, None, false)];
      nextSub := nextSub + 1;
      return Done(nextSub - 1);
    }

    method MoveSubscription(id: int, seat: Option<int>, now: Instant) returns (outcome: Outcome<()>)
      requires Valid() && !now.Before(clock)
      modifies `subs, `clock
      ensures Committed(old(Snapshot()), Snapshot(),
        Lifecycles.MoveSubscription(old(Snapshot()), id, seat, now), outcome)
      ensures Valid() && clock == now
    {
      hide Orderly;
      StepStaysOrderly(Snapshot(), Move(id, seat), now, clock);
      clock := now;
      if id !in subs { return Refused(NotFound); }
      if subs[id].deferred && seat != subs[id].seat { return Refused(RenewalDeferred); }
      if seat.Some? && seat != subs[id].seat && SeatClosed(Tables(), seat.value) {
        return Refused(SeatAvailability(Tables(), seat.value).value);
      }
      if HasOpenCase(cases, id) { return Refused(OpenAfterSales); }
      if !subs[id].Active() { return Refused(StateChanged); }
      if seat.Some? {
        if SeatAvailability(Tables(), seat.value) == Some(SeatReferenceMissing) {
          return Refused(SeatReferenceMissing);
        }
        if SeatTaken(subs, seat.value, id, now) { return Refused(SeatOccupied); }
      }
      subs := subs[id := subs[id].(seat := seat)];
      return Done(());
    }

    method AddAccount(id: int, paused: bool) returns (outcome: Outcome<()>)
      requires Valid()
      modifies `accounts
      ensures Committed(old(Snapshot()), Snapshot(), Lifecycles.AddAccount(old(Snapshot()), id, paused), outcome)
      ensures Valid() && clock == old(clock)
    {
      hide Orderly;
      StepStaysOrderly(Snapshot(), NewAccount(id, paused), clock, clock);
      if id in accounts { return Refused(StateChanged); }
      accounts := accounts[id := Account(None, paused)];
      return Done(());
    }

    method SetPaused(owned: set<int>, paused: bool)
      requires Valid()
      modifies `accounts
      ensures Snapshot() == Lifecycles.SetPaused(old(Snapshot()), owned, paused)
      ensures Valid() && clock == old(clock)
    {
      hide Orderly;
      StepStaysOrderly(Snapshot(), Pause(owned, paused), clock, clock);
      accounts := map a | a in accounts :: if a in owned then accounts[a].(paused := paused) else accounts[a];
      assert Snapshot() == After(old(Snapshot()), Pause(owned, paused), clock);
    }

    method AddSeat(account: int) returns (outcome: Outcome<int>)
      requires Valid()
      modifies `seats, `nextSeat
      ensures Committed(old(Snapshot()), Snapshot(), Lifecycles.AddSeat(old(Snapshot()), account), outcome)
      ensures outcome.Done? ==> outcome.value == old(nextSeat)
      ensures Valid() && clock == old(clock)
    {
      hide Orderly;
      StepStaysOrderly(Snapshot(), NewSeat(account), clock, clock);
      if account !in accounts { return Refused(NotFound); }
      seats := seats[nextSeat := account];
      nextSeat := nextSeat + 1;
      return Done(nextSeat - 1);
    }

    method DeleteSeat(seat: int) returns (outcome: Outcome<()>)
      requires Valid()
      modifies `seats
      ensures Committed(old(Snapshot()), Snapshot(), Lifecycles.DeleteSeat(old(Snapshot()), seat), outcome)
      ensures Valid() && clock == old(clock)
    {
      hide Orderly;
      StepStaysOrderly(Snapshot(), DropSeat(seat), clock, clock);
      if seat !in seats { return Refused(NotFound); }
      if exists s :: s in subs && subs[s].seat == Some(seat) { return Refused(SeatReferenced); }
      seats := seats - {seat};
      return Done(());
    }

    // ---- bills

    method AddBill(sub: int, due: int, amountCents: int) returns (outcome: Outcome<()>)
      requires Valid()
      modifies `bills, `nextBill, `subs
      ensures Committed(old(Snapshot()), Snapshot(),
        Lifecycles.AddBill(old(Snapshot()), sub, due, amountCents), outcome)
      ensures Valid() && clock == old(clock)
    {
      hide Orderly;
      StepStaysOrderly(Snapshot(), Pay(sub, due, amountCents), clock, clock);
      if exists b :: b in bills && bills[b].sub == sub && bills[b].due == due { return Done(()); }
      if sub !in subs || !subs[sub].Active() || HasOpenCase(cases, sub) { return Refused(StateChanged); }
      if amountCents < 0 { return Refused(InvalidAmount); }
      bills := bills[nextBill := Bill(sub, due, amountCents)];
      nextBill := nextBill + 1;
      subs := subs[sub := subs[sub].(deferred := false)];
      return Done(());
    }

    method UpdateBill(bill: int, amountCents: int) returns (outcome: Outcome<()>)
      requires Valid()
      modifies `bills
      ensures Committed(old(Snapshot()), Snapshot(), Lifecycles.UpdateBill(old(Snapshot()), bill, amountCents), outcome)
      ensures Valid() && clock == old(clock)
    {
      hide Orderly;
      StepStaysOrderly(Snapshot(), EditBill(bill, amountCents), clock, clock);
      if amountCents < 0 { return Refused(InvalidAmount); }
      if BillLinked(cases, bill) { return Refused(BillReferenced); }
      if bill !in bills { return Refused(NotFound); }
      bills := bills[bill := bills[bill].(amountCents := amountCents)];
      return Done(());
    }

    method DeleteBill(bill: int) returns (outcome: Outcome<()>)
      requires Valid()
      modifies `bills, `subs
      ensures Committed(old(Snapshot()), Snapshot(), Lifecycles.DeleteBill(old(Snapshot()), bill), outcome)
      ensures Valid() && clock == old(clock)
    {
      hide Orderly;
      StepStaysOrderly(Snapshot(), DropBill(bill), clock, clock);
      if bill !in bills || bills[bill].sub !in subs { return Refused(NotFound); }
      if BillLinked(cases, bill) { return Refused(BillReferenced); }
      var sub := bills[bill].sub;
      subs := subs[sub := subs[sub].(deferred := false)];
      bills := bills - {bill};
      assert Snapshot() == After(old(Snapshot()), DropBill(bill), clock);
      return Done(());
    }
  }

  lemma {:induction false} SeatSearchIgnoresLog(db: Db, log: seq<Departure>, account: int, now: Instant, seat: int)
    ensures FirstFreeSeat(db.(departures := log), account, now, seat) == FirstFreeSeat(db, account, now, seat)
    decreases db.nextSeat - seat
  {
    if seat < db.nextSeat { SeatSearchIgnoresLog(db, log, account, now, seat + 1); }
  }
}
