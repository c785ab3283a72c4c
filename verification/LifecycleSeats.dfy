/** Seats: one holder at a time through every transaction, and nobody newly seated on a paused account. */
module LifecycleSeats {
  import opened Instants
  import opened Lifecycles
  import opened LifecycleLaws

  predicate Holding(subs: map<int, Subscription>, s: int, seat: int, now: Instant) {
    s in subs && subs[s].seat == Some(seat) && subs[s].Holds(now)
  }

  predicate Using(subs: map<int, Subscription>, s: int, seat: int) {
    s in subs && subs[s].seat == Some(seat) && subs[s].Active()
  }

  /** At `now` no seat has two holders, in use or frozen. */
  ghost predicate Exclusive(subs: map<int, Subscription>, now: Instant) {
    forall s, r, t :: Holding(subs, s, t, now) && Holding(subs, r, t, now) ==> s == r
  }

  /** Freezes only run out as time passes. */
  lemma ExclusiveLater(subs: map<int, Subscription>, now: Instant, later: Instant)
    requires Exclusive(subs, now) && !later.Before(now)
    ensures Exclusive(subs, later)
  {
    forall s, r, t | Holding(subs, s, t, later) && Holding(subs, r, t, later) ensures s == r {
      assert Holding(subs, s, t, now) && Holding(subs, r, t, now);
    }
  }

  /** Nobody holds or uses a seat that they did not hold or use before. */
  ghost predicate Yields(db: Db, next: Db, now: Instant) {
    && (forall s, t :: Holding(next.subs, s, t, now) ==> Holding(db.subs, s, t, now))
    && (forall s, t :: Using(next.subs, s, t) ==> Using(db.subs, s, t))
  }

  lemma YieldsKeepsExclusive(db: Db, next: Db, now: Instant)
    requires Exclusive(db.subs, now) && Yields(db, next, now)
    ensures Exclusive(next.subs, now)
  {
  }

  /** One subscription takes a seat that nobody else holds. */
  ghost predicate Takes(db: Db, next: Db, taker: int, seat: int, now: Instant) {
    && !SeatTaken(db.subs, seat, taker, now)
    && (forall s, t :: s != taker && Holding(next.subs, s, t, now) ==> Holding(db.subs, s, t, now))
    && (forall s, t :: s != taker && Using(next.subs, s, t) ==> Using(db.subs, s, t))
    && (forall t :: Holding(next.subs, taker, t, now) ==> t == seat)
  }

  lemma TakesKeepsExclusive(db: Db, next: Db, taker: int, seat: int, now: Instant)
    requires Exclusive(db.subs, now) && Takes(db, next, taker, seat, now)
    ensures Exclusive(next.subs, now)
  {
    forall r | r != taker ensures !Holding(db.subs, r, seat, now) {
    }
  }

  // ---- departures, bans and sweeps only give seats up

  lemma DepartYields(db: Db, id: int, at: Instant, preserve: Option<int>, configured: Instant)
    ensures var o := Depart(db, id, at, preserve, configured); o.Done? ==> Yields(db, o.value, at)
  {
  }

  lemma RemoveYields(db: Db, items: seq<Removal>, k: nat, now: Instant, freezeUntil: Instant)
    requires k <= |items|
    ensures var o := RemoveFrom(db, items, k, now, freezeUntil); o.Done? ==> Yields(db, o.value, now)
    decreases |items| - k
  {
    var o := RemoveFrom(db, items, k, now, freezeUntil);
    if o.Done? && k < |items| {
      DepartYields(db, items[k].sub, now, None, freezeUntil);
      RemoveYields(Depart(db, items[k].sub, now, None, freezeUntil).value, items, k + 1, now, freezeUntil);
    }
  }

  lemma BanFromYields(db: Db, account: int, day: int, warrantyDays: int, id: int, now: Instant)
    ensures var o := BanFrom(db, account, day, warrantyDays, id); o.Done? ==> Yields(db, o.value, now)
    decreases db.nextSub - id
  {
    if id < db.nextSub {
      if !Affected(db, account, id) {
        BanFromYields(db, account, day, warrantyDays, id + 1, now);
      } else {
        var one := BanOne(db, account, id, day, warrantyDays);
        if one.Done? { BanFromYields(one.value, account, day, warrantyDays, id + 1, now); }
      }
    }
  }

  lemma ArchiveYields(db: Db, id: int, at: Instant, freezeUntil: Option<Instant>, expiry: Option<bool>)
    ensures var o := ArchiveSubscription(db, id, at, freezeUntil, expiry); o.Done? ==> Yields(db, o.value, at)
  {
    if freezeUntil.Some? { DepartYields(db, id, at, None, freezeUntil.value); }
  }

  lemma FreezeEndsYield(db: Db, id: int, until: Instant, now: Instant)
    ensures var o := UpdateFrozenUntil(db, id, until, now); o.Done? ==> Yields(db, o.value, now)
    ensures var o := SoftDelete(db, id, now); o.Done? ==> Yields(db, o.value, now)
  {
  }

  lemma DeferralYields(db: Db, id: int, current: bool, now: Instant)
    ensures var o := DeferRenewal(db, id, current); o.Done? ==> Yields(db, o.value, now)
    ensures var o := RestoreRenewal(db, id); o.Done? ==> Yields(db, o.value, now)
  {
  }

  lemma ExpiryYields(db: Db, now: Instant)
    ensures Yields(db, RestoreExpired(db, now), now)
  {
  }

  lemma YieldsItself(db: Db, now: Instant)
    ensures Yields(db, db, now)
  {
  }

  lemma RowOpsYield(db: Db, op: Op, now: Instant)
    requires OnRows(op) && !Seating(op)
    ensures Yields(db, After(db, op, now), now)
  {
    YieldsItself(db, now);
    match op
    case Archive(id, freezeUntil, expiry) => ArchiveYields(db, id, now, freezeUntil, expiry);
    case EditFreeze(id, until) => FreezeEndsYield(db, id, until, now);
    case Delete(id) => FreezeEndsYield(db, id, now, now);
    case Defer(id, current) => DeferralYields(db, id, current, now);
    case Restore(id) => DeferralYields(db, id, true, now);
    case Remove(items, freezeDays) => if items != [] { RemoveYields(db, items, 0, now, now.AddDays(freezeDays)); }
  }

  lemma BanYields(db: Db, account: int, day: int, warrantyDays: int, now: Instant)
    ensures var o := BanAccount(db, account, day, warrantyDays); o.Done? ==> Yields(db, o.value, now)
  {
    if account in db.accounts {
      var bannedOn := if db.accounts[account].bannedOn.Some? then db.accounts[account].bannedOn.value else day;
      BanFromYields(db.(accounts := db.accounts[account := db.accounts[account].(bannedOn := Some(bannedOn))]),
                    account, bannedOn, warrantyDays, 0, now);
    }
  }

  lemma CaseEditsYield(db: Db, id: int, refundCents: int, expiresAt: Instant, warrantyDays: int, now: Instant)
    ensures var o := UpdateCase(db, id, refundCents); o.Done? ==> Yields(db, o.value, now)
    ensures var o := RequestCancellation(db, id, now, expiresAt, warrantyDays); o.Done? ==> Yields(db, o.value, now)
  {
  }

  lemma RefundYields(db: Db, id: int, at: Instant, freezeUntil: Instant)
    requires id in db.cases
    ensures var o := CompleteCancellation(db, id, at, freezeUntil); o.Done? ==> Yields(db, o.value, at)
    ensures var o := RefundBan(db, id, at); o.Done? ==> Yields(db, o.value, at)
  {
    DepartYields(db.(cases := db.cases[id := db.cases[id].(status := Refunded)]),
      db.cases[id].sub, at, Some(id), freezeUntil);
  }

  lemma CaseOpsYield(db: Db, op: Op, now: Instant)
    requires OnCases(op) && !Seating(op)
    ensures Yields(db, After(db, op, now), now)
  {
    YieldsItself(db, now);
    match op
    case Ban(account, day, warrantyDays) => BanYields(db, account, day, warrantyDays, now);
    case RequestCancel(id, expiresAt, warrantyDays) => CaseEditsYield(db, id, 0, expiresAt, warrantyDays, now);
    case ExpireCancellations => ExpiryYields(db, now);
    case EditCase(id, refundCents) => CaseEditsYield(db, id, refundCents, now, 0, now);
    case MarkRefunded(id, _, freezeAt) => if id in db.cases { RefundYields(db, id, now, freezeAt); }
  }

  lemma TableOpsYield(db: Db, op: Op, now: Instant)
    requires !OnRows(op) && !OnCases(op)
    ensures Yields(db, After(db, op, now), now)
  {
    var next := After(db, op, now);
    assert forall s :: s in next.subs ==>
      s in db.subs && next.subs[s] == db.subs[s].(deferred := next.subs[s].deferred);
  }

  // ---- the four ways onto a seat

  predicate Seating(op: Op) {
    op.Insert? || op.Move? || op.MoveAffected? || (op.MarkRefunded? && !op.refunded)
  }

  /** Which subscription a seating operation is about. */
  function Taker(db: Db, op: Op): int
    requires Seating(op)
  {
    match op
    case Insert(_) => db.nextSub
    case Move(id, _) => id
    case MoveAffected(id, _, _) => if id in db.cases then db.cases[id].sub else -1
    case MarkRefunded(id, _, _) => if id in db.cases then db.cases[id].sub else -1
  }

  /** Either nothing is taken, or one seat by one subscription from a running account. Only undoing a refund
      may return a customer to a banned account: the customer's own old seat. */
  ghost predicate Seats(db: Db, next: Db, op: Op, now: Instant)
    requires Seating(op)
  {
    Yields(db, next, now)
    || exists t :: Takes(db, next, Taker(db, op), t, now)
                   && (Using(db.subs, Taker(db, op), t)
                       || (t in db.seats && db.seats[t] in db.accounts && !db.accounts[db.seats[t]].paused
                           && (db.accounts[db.seats[t]].bannedOn.None? || op.MarkRefunded?)))
  }

  lemma InsertSeats(db: Db, seat: Option<int>, now: Instant)
    requires Refs(db)
    ensures Seats(db, After(db, Insert(seat), now), Insert(seat), now)
  {
    forall s | s in db.subs ensures s < db.nextSub { assert RowRefs(db, s); }
    if InsertSubscription(db, seat, now).Done? && seat.Some? {
      assert Takes(db, After(db, Insert(seat), now), db.nextSub, seat.value, now);
    }
  }

  lemma MoveSeats(db: Db, id: int, seat: Option<int>, now: Instant)
    ensures Seats(db, After(db, Move(id, seat), now), Move(id, seat), now)
  {
    if MoveSubscription(db, id, seat, now).Done? && seat.Some? {
      assert Takes(db, After(db, Move(id, seat), now), id, seat.value, now);
    }
  }

  lemma ReassignSeats(db: Db, id: int, account: int, seat: Option<int>, now: Instant)
    ensures Seats(db, After(db, MoveAffected(id, account, seat), now), MoveAffected(id, account, seat), now)
  {
    if Reassign(db, id, account, seat, now).Done? {
      var target := if seat.Some? then seat else FirstFreeSeat(db, account, now, 0);
      assert Takes(db, After(db, MoveAffected(id, account, seat), now), db.cases[id].sub, target.value, now);
    }
  }

  lemma UndoSeats(db: Db, id: int, freezeAt: Instant, now: Instant)
    ensures Seats(db, After(db, MarkRefunded(id, false, freezeAt), now), MarkRefunded(id, false, freezeAt), now)
  {
    if SetRefunded(db, id, false, now, freezeAt).Done? {
      assert Takes(db, After(db, MarkRefunded(id, false, freezeAt), now), db.cases[id].sub,
        db.subs[db.cases[id].sub].seat.value, now);
    }
  }

  lemma SeatingSeats(db: Db, op: Op, now: Instant)
    requires Refs(db) && Seating(op)
    ensures Seats(db, After(db, op, now), op, now)
  {
    match op
    case Insert(seat) => InsertSeats(db, seat, now);
    case Move(id, seat) => MoveSeats(db, id, seat, now);
    case MoveAffected(id, account, seat) => ReassignSeats(db, id, account, seat, now);
    case MarkRefunded(id, _, freezeAt) => UndoSeats(db, id, freezeAt, now);
  }

  lemma OthersYield(db: Db, op: Op, now: Instant)
    requires !Seating(op)
    ensures Yields(db, After(db, op, now), now)
  {
    if OnRows(op) {
      RowOpsYield(db, op, now);
    } else if OnCases(op) {
      CaseOpsYield(db, op, now);
    } else {
      TableOpsYield(db, op, now);
    }
  }

  predicate Open(db: Db, seat: int) {
    && seat in db.seats && db.seats[seat] in db.accounts
    && !db.accounts[db.seats[seat]].paused && db.accounts[db.seats[seat]].bannedOn.None?
  }

  /** A new customer gets a seat exactly when it belongs to a running, unbanned account and nobody holds it,
      and then holds it. */
  lemma SeatGivenExactly(db: Db, seat: int, now: Instant)
    requires Refs(db)
    ensures InsertSubscription(db, Some(seat), now).Done? <==>
      Open(db, seat) && forall r :: !Holding(db.subs, r, seat, now)
    ensures InsertSubscription(db, Some(seat), now).Done? ==>
      forall r :: Holding(InsertSubscription(db, Some(seat), now).value.subs, r, seat, now) <==> r == db.nextSub
  {
    forall s | s in db.subs ensures 0 <= s < db.nextSub { assert RowRefs(db, s); }
    if SeatTaken(db.subs, seat, -1, now) {
      var s :| s in db.subs && s != -1 && db.subs[s].seat == Some(seat) && db.subs[s].Holds(now);
      assert Holding(db.subs, s, seat, now);
    }
  }

  /** Pausing closes every seat of the owner's accounts to newcomers and disturbs nobody already there. */
  lemma PausingClosesSeats(db: Db, owned: set<int>, op: Op, now: Instant, s: int, seat: int)
    requires Refs(db) && seat in db.seats && db.seats[seat] in owned
    ensures var paused := SetPaused(db, owned, true);
      paused.subs == db.subs && (Using(After(paused, op, now).subs, s, seat) ==> Using(db.subs, s, seat))
  {
    var paused := SetPaused(db, owned, true);
    RefsAfterAccounts(db, paused);
    if Using(After(paused, op, now).subs, s, seat) && !Using(paused.subs, s, seat) {
      NobodySeatedOnPaused(paused, op, now, s, seat);
    }
  }

  // ---- every transaction, every run

  lemma StepKeepsExclusive(db: Db, op: Op, now: Instant)
    requires Refs(db) && Exclusive(db.subs, now)
    ensures Exclusive(After(db, op, now).subs, now)
  {
    var next := After(db, op, now);
    if !Seating(op) {
      OthersYield(db, op, now);
      YieldsKeepsExclusive(db, next, now);
    } else {
      SeatingSeats(db, op, now);
      if Yields(db, next, now) {
        YieldsKeepsExclusive(db, next, now);
      } else {
        var t :| Takes(db, next, Taker(db, op), t, now);
        TakesKeepsExclusive(db, next, Taker(db, op), t, now);
      }
    }
  }

  /** Whoever starts using a seat finds its account running, and not banned unless a refund is being undone. */
  lemma NobodySeatedOnPaused(db: Db, op: Op, now: Instant, s: int, seat: int)
    requires Refs(db) && Using(After(db, op, now).subs, s, seat) && !Using(db.subs, s, seat)
    ensures seat in db.seats && db.seats[seat] in db.accounts && !db.accounts[db.seats[seat]].paused
    ensures db.accounts[db.seats[seat]].bannedOn.Some? ==> op.MarkRefunded? && !op.refunded
    ensures forall r :: r != s ==> !Holding(db.subs, r, seat, now)
  {
    var next := After(db, op, now);
    if !Seating(op) {
      OthersYield(db, op, now);
    } else {
      SeatingSeats(db, op, now);
      assert Holding(next.subs, s, seat, now);
      forall r, t | r != Taker(db, op) && !SeatTaken(db.subs, t, Taker(db, op), now)
        ensures !Holding(db.subs, r, t, now)
      {
      }
    }
  }

  /** At every moment of every run with a clock that never goes back, each seat has at most one holder. */
  lemma {:induction false} RunKeepsExclusive(db: Db, events: seq<Event>, start: Instant)
    requires CaseRules(db) && Exclusive(db.subs, start) && Timely(events, start)
    ensures Exclusive(Run(db, events).subs, LastClock(events, start))
    decreases |events|
  {
    if events != [] {
      var next := After(db, events[0].op, events[0].at);
      ExclusiveLater(db.subs, start, events[0].at);
      StepKeepsExclusive(db, events[0].op, events[0].at);
      StepKeepsCaseRules(db, events[0].op, events[0].at);
      RunKeepsExclusive(next, events[1..], events[0].at);
    }
  }

  lemma SeatsStayExclusive(events: seq<Event>, start: Instant, now: Instant)
    requires Timely(events, start)
    requires !now.Before(LastClock(events, start))
    ensures Exclusive(Run(EmptyDb(), events).subs, now)
  {
    RunKeepsExclusive(EmptyDb(), events, start);
    ExclusiveLater(Run(EmptyDb(), events).subs, LastClock(events, start), now);
  }
}
