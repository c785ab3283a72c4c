/** Seat freezes: which transactions can end one early, and the documented no-op that does. */
module LifecycleFreezes {
  import opened Instants
  import opened Lifecycles
  import opened Transactions
  import opened LifecycleLaws
  import opened LifecycleSeats

  /** An archived customer whose old seat is frozen until `until`. */
  ghost predicate Frozen(db: Db, s: int, seat: int, until: Instant) {
    && s in db.subs && db.subs[s].archivedAt.Some? && db.subs[s].deletedAt.None?
    && db.subs[s].seat == Some(seat) && db.subs[s].frozenUntil == Some(until)
  }

  /** Archiving the customer again by hand, and editing the freeze itself. */
  predicate Unfreezing(op: Op, s: int) {
    (op.Archive? && op.id == s && op.freezeUntil.None?) || (op.EditFreeze? && op.id == s)
  }

  // ---- the documented no-op

  /** Archiving an archived customer by hand changes nothing exactly when no freeze is left to lose, or a
      renewal deferral makes it refuse. */
  lemma ArchivingAgainIsNoOpExactly(db: Db, id: int, now: Instant)
    requires CaseRules(db) && id in db.subs && db.subs[id].archivedAt.Some? && db.subs[id].deletedAt.None?
    ensures After(db, Archive(id, None, None), now) == db <==> db.subs[id].frozenUntil.None? || db.subs[id].deferred
  {
    assert SubRules(db, id);
    SubRulesUnfold(db, id);
    var s := db.subs[id];
    if !s.deferred {
      assert !HasOpenCase(db.cases, id);
      var next := After(db, Archive(id, None, None), now);
      assert next.subs[id] == s.(frozenUntil := None, deferred := false, cancelExpires := None, cancelCase := None);
      if s.frozenUntil.None? { assert next.subs == db.subs; }
    }
  }

  /** The tables with one customer who left on day 0 and whose seat is frozen until day 30. */
  function FrozenCustomer(): Db {
    Db(map[1 := Account(None, false)], map[1 := 1],
       map[1 := Subscription(Some(1), Some(Midnight(0)), None, Some(Midnight(30)), None, None, false)],
       map[], map[], 2, 2, 1, 1, [])
  }

  /** Archiving that customer again on day 1 gives the seat away 29 days early. */
  lemma ArchivingAgainFreesTheSeat()
    ensures CaseRules(FrozenCustomer()) && Frozen(FrozenCustomer(), 1, 1, Midnight(30))
    ensures InsertSubscription(FrozenCustomer(), Some(1), Midnight(1)) == Refused(SeatOccupied)
    ensures var again := After(FrozenCustomer(), Archive(1, None, None), Midnight(1));
      again != FrozenCustomer() && InsertSubscription(again, Some(1), Midnight(1)).Done?
  {
    var db := FrozenCustomer();
    assert SubRules(db, 1);
    ArchivingAgainIsNoOpExactly(db, 1, Midnight(1));
    assert Holding(db.subs, 1, 1, Midnight(1));
  }

  // ---- which departures freeze the seat

  /** The moment until which a departing customer's seat may be frozen; a manual archive and the refund of a
      ban case have none and do not consult the release allowance. */
  function ConfiguredEnd(db: Db, op: Op): Option<Instant> {
    match op
    case Archive(_, freezeUntil, _) => freezeUntil
    case MarkRefunded(id, _, freezeAt) =>
      if id in db.cases && db.cases[id].source == CustomerCancellation then Some(freezeAt) else None
    case _ => None
  }

  lemma ArchivingFreezesExactly(
    db: Db, s: int, seat: int, now: Instant, freezeUntil: Option<Instant>, expiry: Option<bool>)
    requires CaseRules(db) && Using(db.subs, s, seat)
    requires ArchiveSubscription(db, s, now, freezeUntil, expiry).Done?
    ensures seat in db.seats
    ensures Holding(ArchiveSubscription(db, s, now, freezeUntil, expiry).value.subs, s, seat, now) <==>
      && freezeUntil.Some? && now.Before(freezeUntil.value)
      && |RecentDepartures(db, db.seats[seat], s, now)| >= IMMEDIATE_RELEASES_PER_WINDOW
  {
    assert RowRefs(db, s);
  }

  lemma CancellingFreezesExactly(db: Db, id: int, s: int, seat: int, now: Instant, freezeAt: Instant)
    requires CaseRules(db) && Using(db.subs, s, seat) && id in db.cases && db.cases[id].sub == s
    requires CompleteCancellation(db, id, now, freezeAt).Done?
    ensures seat in db.seats
    ensures Holding(CompleteCancellation(db, id, now, freezeAt).value.subs, s, seat, now) <==>
      now.Before(freezeAt) && |RecentDepartures(db, db.seats[seat], s, now)| >= IMMEDIATE_RELEASES_PER_WINDOW
  {
    assert RowRefs(db, s);
    var marked := db.(cases := db.cases[id := db.cases[id].(status := Refunded)]);
    assert RecentDepartures(marked, db.seats[seat], s, now) == RecentDepartures(db, db.seats[seat], s, now);
  }

  /** A departing customer's seat stays taken exactly when the departure has a configured end still to come
      and four or more customers of the account have left within the window. */
  lemma DepartureFreezesExactly(db: Db, op: Op, now: Instant, s: int, seat: int)
    requires CaseRules(db) && Using(db.subs, s, seat)
    requires op.Archive? || (op.MarkRefunded? && op.refunded)
    requires var next := After(db, op, now); s in next.subs && next.subs[s].archivedAt.Some?
    ensures seat in db.seats
    ensures Holding(After(db, op, now).subs, s, seat, now) <==>
      && ConfiguredEnd(db, op).Some? && now.Before(ConfiguredEnd(db, op).value)
      && |RecentDepartures(db, db.seats[seat], s, now)| >= IMMEDIATE_RELEASES_PER_WINDOW
  {
    assert RowRefs(db, s);
    match op
    case Archive(id, freezeUntil, expiry) =>
      assert id == s;
      ArchivingFreezesExactly(db, s, seat, now, freezeUntil, expiry);
    case MarkRefunded(id, _, freezeAt) =>
      assert id in db.cases && db.cases[id].sub == s;
      if db.cases[id].source == CustomerCancellation { CancellingFreezesExactly(db, id, s, seat, now, freezeAt); }
  }

  function Seated(seat: int, archivedAt: Option<Instant>): Subscription {
    Subscription(Some(seat), archivedAt, None, None, None, None, false)
  }

  /** The tables of an account four of whose five customers left on day 0. */
  function FourGone(): Db {
    var gone := Some(Midnight(0));
    Db(map[1 := Account(None, false)], map[1 := 1, 2 := 1, 3 := 1, 4 := 1, 5 := 1],
       map[1 := Seated(1, gone), 2 := Seated(2, gone), 3 := Seated(3, gone), 4 := Seated(4, gone),
           5 := Seated(5, None)],
       map[], map[], 6, 6, 1, 1, [])
  }

  lemma FourGoneInOrder()
    ensures CaseRules(FourGone()) && Using(FourGone().subs, 5, 5)
    ensures RecentDepartures(FourGone(), 1, 5, Midnight(1)) == {1, 2, 3, 4}
  {
    var db := FourGone();
    forall s | s in db.subs ensures SubRules(db, s) && RowRefs(db, s) { }
  }

  lemma OthersFree(db: Db, s: int, seat: int, now: Instant)
    requires seat in db.seats && db.seats[seat] in db.accounts
    requires db.accounts[db.seats[seat]] == Account(None, false)
    requires forall r :: r != s ==> !Holding(db.subs, r, seat, now)
    ensures if s != -1 && Holding(db.subs, s, seat, now)
            then InsertSubscription(db, Some(seat), now) == Refused(SeatOccupied)
            else InsertSubscription(db, Some(seat), now).Done?
  {
    assert SeatTaken(db.subs, seat, -1, now) <==> s != -1 && Holding(db.subs, s, seat, now) by {
      if SeatTaken(db.subs, seat, -1, now) {
        var r :| r in db.subs && r != -1 && db.subs[r].seat == Some(seat) && db.subs[r].Holds(now);
        assert Holding(db.subs, r, seat, now);
      }
    }
  }

  /** The fifth departure of the window gives its seat back at once when archived by hand, where the allowance
      would have kept it. */
  lemma FifthDepartureAtOnce()
    ensures CaseRules(FourGone())
    ensures |RecentDepartures(FourGone(), 1, 5, Midnight(1))| == IMMEDIATE_RELEASES_PER_WINDOW
    ensures var byHand := After(FourGone(), Archive(5, None, None), Midnight(1));
      !Holding(byHand.subs, 5, 5, Midnight(1)) && InsertSubscription(byHand, Some(5), Midnight(1)).Done?
    ensures var expired := After(FourGone(), Archive(5, Some(Midnight(31)), None), Midnight(1));
      && Holding(expired.subs, 5, 5, Midnight(1))
      && InsertSubscription(expired, Some(5), Midnight(1)) == Refused(SeatOccupied)
  {
    hide After, InsertSubscription, RecentDepartures, CaseRules, FourGone, Holding;
    FourGoneInOrder();
    FifthArchived(None);
    FifthArchived(Some(Midnight(31)));
  }

  lemma FifthArchived(freezeUntil: Option<Instant>)
    requires freezeUntil.Some? ==> Midnight(1).Before(freezeUntil.value)
    ensures var next := After(FourGone(), Archive(5, freezeUntil, None), Midnight(1));
      && (Holding(next.subs, 5, 5, Midnight(1)) <==> freezeUntil.Some?)
      && (freezeUntil.Some? ==> InsertSubscription(next, Some(5), Midnight(1)) == Refused(SeatOccupied))
      && (freezeUntil.None? ==> InsertSubscription(next, Some(5), Midnight(1)).Done?)
  {
    hide After, InsertSubscription, RecentDepartures, CaseRules, Holding;
    var db, next := FourGone(), After(FourGone(), Archive(5, freezeUntil, None), Midnight(1));
    FourGoneInOrder();
    FifthIsArchived(freezeUntil);
    DepartureFreezesExactly(db, Archive(5, freezeUntil, None), Midnight(1), 5, 5);
    OthersFree(next, 5, 5, Midnight(1));
  }

  lemma FifthIsArchived(freezeUntil: Option<Instant>)
    ensures var next := After(FourGone(), Archive(5, freezeUntil, None), Midnight(1));
      && 5 in next.subs && next.subs[5].archivedAt.Some?
      && next.seats == FourGone().seats && next.accounts == FourGone().accounts
      && forall r :: r != 5 ==> !Holding(next.subs, r, 5, Midnight(1))
  {
    assert !HasOpenCase(FourGone().cases, 5);
  }

  // ---- editing a freeze, deleting a customer

  /** A freeze can be edited exactly while it is in force, and then the seat is held until the new end, which
      may already be over. */
  lemma FreezeEditMovesTheEnd(db: Db, id: int, until: Instant, now: Instant)
    ensures UpdateFrozenUntil(db, id, until, now).Done? <==>
            exists seat, end :: Frozen(db, id, seat, end) && now.Before(end)
    ensures UpdateFrozenUntil(db, id, until, now).Done? ==>
      var next := UpdateFrozenUntil(db, id, until, now).value;
      forall r, seat, moment :: Holding(next.subs, r, seat, moment) <==>
        if r == id then db.subs[id].seat == Some(seat) && moment.Before(until) else Holding(db.subs, r, seat, moment)
  {
    if UpdateFrozenUntil(db, id, until, now).Done? {
      assert Frozen(db, id, db.subs[id].seat.value, db.subs[id].frozenUntil.value);
    }
  }

  /** A customer can be deleted exactly when archived and holding no seat any more, so deleting one never
      frees a seat, now or later. */
  lemma DeletingFreesNothing(db: Db, id: int, now: Instant)
    requires CaseRules(db) && id in db.subs && db.subs[id].deletedAt.None?
    ensures SoftDelete(db, id, now).Done? <==>
      db.subs[id].archivedAt.Some? && forall seat :: !Holding(db.subs, id, seat, now)
    ensures SoftDelete(db, id, now).Done? ==>
      forall r, seat, later: Instant :: !later.Before(now) ==>
        (Holding(SoftDelete(db, id, now).value.subs, r, seat, later) <==> Holding(db.subs, r, seat, later))
  {
    assert SubRules(db, id);
    if db.subs[id].seat.Some? {
      assert Holding(db.subs, id, db.subs[id].seat.value, now) <==> db.subs[id].Holds(now);
    }
  }

  // ---- everything else

  lemma BanFromKeepsFreeze(
      db: Db, account: int, day: int, warrantyDays: int, id: int, s: int, seat: int, until: Instant)
    requires Frozen(db, s, seat, until)
    ensures var o := BanFrom(db, account, day, warrantyDays, id); o.Done? ==> Frozen(o.value, s, seat, until)
    decreases db.nextSub - id
  {
    if id < db.nextSub {
      if !Affected(db, account, id) {
        BanFromKeepsFreeze(db, account, day, warrantyDays, id + 1, s, seat, until);
      } else {
        var one := BanOne(db, account, id, day, warrantyDays);
        if one.Done? { BanFromKeepsFreeze(one.value, account, day, warrantyDays, id + 1, s, seat, until); }
      }
    }
  }

  lemma RemoveKeepsFreeze(
    db: Db, items: seq<Removal>, k: nat, now: Instant, freezeUntil: Instant, s: int, seat: int, until: Instant)
    requires k <= |items| && Frozen(db, s, seat, until)
    ensures var o := RemoveFrom(db, items, k, now, freezeUntil); o.Done? ==> Frozen(o.value, s, seat, until)
    decreases |items| - k
  {
    var o := RemoveFrom(db, items, k, now, freezeUntil);
    if o.Done? && k < |items| {
      RemoveKeepsFreeze(Depart(db, items[k].sub, now, None, freezeUntil).value, items, k + 1, now, freezeUntil,
        s, seat, until);
    }
  }

  lemma ArchiveKeepsFreeze(
    db: Db, id: int, at: Instant, freezeUntil: Option<Instant>, expiry: Option<bool>, s: int, seat: int, until: Instant)
    requires Frozen(db, s, seat, until) && (id != s || freezeUntil.Some?)
    ensures var o := ArchiveSubscription(db, id, at, freezeUntil, expiry); o.Done? ==> Frozen(o.value, s, seat, until)
  {
  }

  lemma RowStepsKeepFreeze(db: Db, op: Op, now: Instant, s: int, seat: int, until: Instant)
    requires Refs(db) && OnRows(op) && !Unfreezing(op, s) && Frozen(db, s, seat, until) && now.Before(until)
    ensures Frozen(After(db, op, now), s, seat, until)
  {
    match op
    case Insert(_) => assert RowRefs(db, s);
    case Archive(id, freezeUntil, expiry) => ArchiveKeepsFreeze(db, id, now, freezeUntil, expiry, s, seat, until);
    case Remove(items, freezeDays) =>
      if items != [] { RemoveKeepsFreeze(db, items, 0, now, now.AddDays(freezeDays), s, seat, until); }
    case _ =>
  }

  lemma CaseStepsKeepFreeze(db: Db, op: Op, now: Instant, s: int, seat: int, until: Instant)
    requires CaseRules(db) && OnCases(op) && Frozen(db, s, seat, until)
    ensures Frozen(After(db, op, now), s, seat, until)
  {
    match op
    case Ban(account, day, warrantyDays) =>
      if account in db.accounts {
        var bannedOn := if db.accounts[account].bannedOn.Some? then db.accounts[account].bannedOn.value else day;
        var marked := db.(accounts := db.accounts[account := db.accounts[account].(bannedOn := Some(bannedOn))]);
        BanFromKeepsFreeze(marked, account, bannedOn, warrantyDays, 0, s, seat, until);
      }
    case MarkRefunded(id, refunded, freezeAt) => RefundStepKeepsFreeze(db, id, refunded, freezeAt, now, s, seat, until);
    case _ =>
  }

  lemma RefundStepKeepsFreeze(
      db: Db, id: int, refunded: bool, freezeAt: Instant, now: Instant, s: int, seat: int, until: Instant)
    requires CaseRules(db) && Frozen(db, s, seat, until)
    ensures Frozen(After(db, MarkRefunded(id, refunded, freezeAt), now), s, seat, until)
  {
    hide RefundTotal, RemainingDays;
    assert SubRules(db, s);
    assert id in db.cases && db.cases[id].sub == s ==> CaseRule(db, id);
  }

  lemma TableStepsKeepFreeze(db: Db, op: Op, now: Instant, s: int, seat: int, until: Instant)
    requires !OnRows(op) && !OnCases(op) && Frozen(db, s, seat, until)
    ensures Frozen(After(db, op, now), s, seat, until)
  {
  }

  /** A freeze still in force survives every transaction but those two. */
  lemma StepKeepsFreeze(db: Db, op: Op, now: Instant, s: int, seat: int, until: Instant)
    requires CaseRules(db) && Frozen(db, s, seat, until) && now.Before(until) && !Unfreezing(op, s)
    ensures Frozen(After(db, op, now), s, seat, until)
  {
    if OnRows(op) { RowStepsKeepFreeze(db, op, now, s, seat, until); }
    else if OnCases(op) { CaseStepsKeepFreeze(db, op, now, s, seat, until); }
    else { TableStepsKeepFreeze(db, op, now, s, seat, until); }
  }

  /** Neither of the two is spared: an accepted one leaves the freeze in place only by setting it to the same end. */
  lemma UnfreezingEndsFreezeExactly(db: Db, op: Op, now: Instant, s: int, seat: int, until: Instant)
    requires CaseRules(db) && Frozen(db, s, seat, until) && now.Before(until) && Unfreezing(op, s)
    ensures Frozen(After(db, op, now), s, seat, until) <==>
            Step(db, op, now).Refused? || (op.EditFreeze? && op.until == until)
  {
    if op.Archive? {
      assert SubRules(db, s);
      SubRulesUnfold(db, s);
    }
  }

  ghost predicate LeftAlone(events: seq<Event>, s: int, until: Instant) {
    forall e :: e in events ==> e.at.Before(until) && !Unfreezing(e.op, s)
  }

  /** So over every run until the freeze ends, unless one of the two touches it, the seat stays taken and
      nobody else can be on it. */
  lemma {:induction false} RunKeepsFreeze(db: Db, events: seq<Event>, start: Instant, s: int, seat: int, until: Instant)
    requires CaseRules(db) && Exclusive(db.subs, start) && Timely(events, start) && start.Before(until)
    requires Frozen(db, s, seat, until) && LeftAlone(events, s, until)
    ensures Frozen(Run(db, events), s, seat, until)
    ensures forall r :: Holding(Run(db, events).subs, r, seat, LastClock(events, start)) <==> r == s
    decreases |events|
  {
    if events == [] {
      assert Holding(db.subs, s, seat, start);
    } else {
      var op, at := events[0].op, events[0].at;
      assert events[0] in events;
      ExclusiveLater(db.subs, start, at);
      StepKeepsExclusive(db, op, at);
      StepKeepsCaseRules(db, op, at);
      StepKeepsFreeze(db, op, at, s, seat, until);
      RunKeepsFreeze(After(db, op, at), events[1..], at, s, seat, until);
    }
  }
}
