/** The rolling release allowance: at most four seats of an account are given back at once within 30 days. */
module LifecycleReleases {
  import opened Instants
  import opened Lifecycles
  import opened LifecycleLaws
  import Collections

  // ---- departures that can never be taken back

  ghost predicate Settled(db: Db, s: int, account: int, at: Instant) {
    && s in db.subs && db.subs[s].archivedAt == Some(at) && SeatAccount(db, db.subs[s]) == Some(account)
    && forall c :: c in db.cases && db.cases[c].sub == s && db.cases[c].source == AccountBan ==>
      db.cases[c].status != Refunded
  }

  /** Such a customer is never un-archived, never moved, and the seat is never deleted. */
  ghost predicate Keeps(db: Db, next: Db) {
    forall s, account, at :: Settled(db, s, account, at) ==> Settled(next, s, account, at)
  }

  lemma KeepsTransitive(a: Db, b: Db, c: Db)
    requires Keeps(a, b) && Keeps(b, c)
    ensures Keeps(a, c)
  {
  }

  // ---- the allowance

  /** Earlier logged departures of the same account within the window that ends with departure `i`. */
  function Window(log: seq<Departure>, i: int): set<int>
    requires 0 <= i < |log|
  {
    set j | 0 <= j < i && log[j].account == log[i].account && !log[j].at.Before(log[i].at.AddDays(-RELEASE_WINDOW_DAYS))
  }

  ghost predicate WithinAllowance(log: seq<Departure>) {
    forall i :: 0 <= i < |log| && log[i].immediate ==> |Window(log, i)| < IMMEDIATE_RELEASES_PER_WINDOW
  }

  ghost predicate InOrder(log: seq<Departure>, clock: Instant) {
    && (forall i, j :: 0 <= i < j < |log| ==> log[i].sub != log[j].sub && !log[j].at.Before(log[i].at))
    && (forall i :: 0 <= i < |log| ==> !clock.Before(log[i].at))
  }

  ghost predicate Tied(db: Db) {
    forall i :: 0 <= i < |db.departures| ==>
      Settled(db, db.departures[i].sub, db.departures[i].account, db.departures[i].at)
  }

  ghost predicate Logged(db: Db, clock: Instant) {
    Tied(db) && InOrder(db.departures, clock) && WithinAllowance(db.departures)
  }

  lemma {:induction false} InjectInto(indices: set<int>, log: seq<Departure>, subs: set<int>)
    requires forall j :: j in indices ==> 0 <= j < |log| && log[j].sub in subs
    requires forall i, j :: i in indices && j in indices && i < j ==> log[i].sub != log[j].sub
    ensures |indices| <= |subs|
    decreases |indices|
  {
    if indices != {} {
      var j := Collections.SomeMember(indices);
      InjectInto(indices - {j}, log, subs - {log[j].sub});
    }
  }

  lemma WindowExtends(log: seq<Departure>, entry: Departure, i: int)
    requires 0 <= i < |log|
    ensures Window(log + [entry], i) == Window(log, i)
  {
  }

  /** The logged departures in a new one's window are among those the allowance query counts. */
  lemma WindowCounted(db: Db, entry: Departure, clock: Instant)
    requires Logged(db, clock) && !entry.at.Before(clock)
    requires entry.sub in db.subs && db.subs[entry.sub].archivedAt.None?
    ensures |Window(db.departures + [entry], |db.departures|)|
      <= |RecentDepartures(db, entry.account, entry.sub, entry.at)|
  {
    var log := db.departures + [entry];
    var n := |db.departures|;
    forall j | j in Window(log, n) ensures log[j].sub in RecentDepartures(db, entry.account, entry.sub, entry.at) {
      assert log[j] == db.departures[j];
      assert Settled(db, log[j].sub, log[j].account, log[j].at);
    }
    InjectInto(Window(log, n), log, RecentDepartures(db, entry.account, entry.sub, entry.at));
  }

  lemma LogGrows(db: Db, next: Db, entry: Departure, clock: Instant)
    requires Logged(db, clock) && !entry.at.Before(clock) && Keeps(db, next)
    requires next.departures == db.departures + [entry]
    requires entry.sub in db.subs && db.subs[entry.sub].archivedAt.None?
    requires Settled(next, entry.sub, entry.account, entry.at)
    requires entry.immediate ==>
      |RecentDepartures(db, entry.account, entry.sub, entry.at)| < IMMEDIATE_RELEASES_PER_WINDOW
    ensures Logged(next, entry.at)
  {
    var n := |db.departures|;
    forall i | 0 <= i < n
      ensures Settled(db, db.departures[i].sub, db.departures[i].account, db.departures[i].at)
      ensures next.departures[i] == db.departures[i]
    { }
    WindowCounted(db, entry, clock);
    forall i | 0 <= i <= n && next.departures[i].immediate
      ensures |Window(next.departures, i)| < IMMEDIATE_RELEASES_PER_WINDOW
    {
      if i < n { WindowExtends(db.departures, entry, i); }
    }
  }

  lemma LogStays(db: Db, next: Db, clock: Instant, now: Instant)
    requires Logged(db, clock) && !now.Before(clock) && Keeps(db, next) && next.departures == db.departures
    ensures Logged(next, now)
  {
  }

  // ---- departures

  /** A departure that goes through the allowance: the customer was active, the log says who left when, and
      `immediate` is exactly whether the seat came back without a freeze. */
  lemma DepartUnfolds(db: Db, id: int, at: Instant, preserve: Option<int>, configured: Instant)
    requires Depart(db, id, at, preserve, configured).Done?
    ensures var next := Depart(db, id, at, preserve, configured).value;
      && id in db.subs && db.subs[id].Active() && id in next.subs
      && next.subs[id].archivedAt == Some(at) && next.subs[id].seat == db.subs[id].seat && next.seats == db.seats
      && (forall s :: s in db.subs && s != id ==> s in next.subs && next.subs[s] == db.subs[s])
      && (forall c :: c in next.cases ==> c in db.cases && next.cases[c] == db.cases[c])
      && (SeatAccount(db, db.subs[id]).None? ==> next.departures == db.departures)
      && (SeatAccount(db, db.subs[id]).Some? ==>
            var immediate := next.subs[id].frozenUntil.None?;
            && next.departures == db.departures + [Departure(id, SeatAccount(db, db.subs[id]).value, at, immediate)]
            && (immediate <==>
              |RecentDepartures(db, SeatAccount(db, db.subs[id]).value, id, at)| < IMMEDIATE_RELEASES_PER_WINDOW))
  {
  }

  lemma DepartKeepsLog(db: Db, id: int, at: Instant, configured: Instant, clock: Instant)
    requires CaseRules(db) && Logged(db, clock) && !at.Before(clock) && !HasOpenCase(db.cases, id)
    ensures var o := Depart(db, id, at, None, configured); o.Done? ==> Keeps(db, o.value) && Logged(o.value, at)
  {
    var o := Depart(db, id, at, None, configured);
    if o.Done? {
      DepartUnfolds(db, id, at, None, configured);
      assert SubRules(db, id);
      SubRulesUnfold(db, id);
      if SeatAccount(db, db.subs[id]).None? {
        LogStays(db, o.value, clock, at);
      } else {
        LogGrows(db, o.value, o.value.departures[|db.departures|], clock);
      }
    }
  }

  lemma RemoveKeepsLog(db: Db, items: seq<Removal>, k: nat, now: Instant, freezeUntil: Instant, clock: Instant)
    requires CaseRules(db) && Logged(db, clock) && !now.Before(clock) && k <= |items|
    ensures var o := RemoveFrom(db, items, k, now, freezeUntil); o.Done? ==> Logged(o.value, now)
    decreases |items| - k
  {
    var o := RemoveFrom(db, items, k, now, freezeUntil);
    if o.Done? {
      if k == |items| {
        LogStays(db, db, clock, now);
      } else {
        var gone := Depart(db, items[k].sub, now, None, freezeUntil).value;
        DepartKeepsLog(db, items[k].sub, now, freezeUntil, clock);
        DepartKeepsRules(db, items[k].sub, now, freezeUntil);
        RemoveKeepsLog(gone, items, k + 1, now, freezeUntil, now);
      }
    }
  }

  lemma CompleteKeepsLog(db: Db, id: int, at: Instant, freezeUntil: Instant, clock: Instant)
    requires CaseRules(db) && Logged(db, clock) && !at.Before(clock)
    ensures var o := CompleteCancellation(db, id, at, freezeUntil); o.Done? ==> Logged(o.value, at)
  {
    var o := CompleteCancellation(db, id, at, freezeUntil);
    if o.Done? {
      var s := db.cases[id].sub;
      var marked := db.(cases := db.cases[id := db.cases[id].(status := Refunded)]);
      CompletedCancellation(db, id, at, freezeUntil);
      DepartUnfolds(marked, s, at, Some(id), freezeUntil);
      assert SubRules(db, s);
      SubRulesUnfold(db, s);
      if SeatAccount(db, db.subs[s]).None? {
        LogStays(db, o.value, clock, at);
      } else {
        assert RecentDepartures(marked, SeatAccount(db, db.subs[s]).value, s, at)
            == RecentDepartures(db, SeatAccount(db, db.subs[s]).value, s, at);
        LogGrows(db, o.value, o.value.departures[|db.departures|], clock);
      }
    }
  }

  lemma ArchiveKeepsLog(
      db: Db, id: int, at: Instant, freezeUntil: Option<Instant>, expiry: Option<bool>, clock: Instant)
    requires CaseRules(db) && Logged(db, clock) && !at.Before(clock)
    ensures var o := ArchiveSubscription(db, id, at, freezeUntil, expiry); o.Done? ==> Logged(o.value, at)
  {
    var o := ArchiveSubscription(db, id, at, freezeUntil, expiry);
    if o.Done? {
      if freezeUntil.Some? { DepartKeepsLog(db, id, at, freezeUntil.value, clock); }
      else { LogStays(db, o.value, clock, at); }
    }
  }

  // ---- everything else leaves settled departures alone

  lemma BanFromKeeps(db: Db, account: int, day: int, warrantyDays: int, id: int)
    ensures var o := BanFrom(db, account, day, warrantyDays, id);
      o.Done? ==> Keeps(db, o.value) && o.value.departures == db.departures
    decreases db.nextSub - id
  {
    if id < db.nextSub {
      if !Affected(db, account, id) {
        BanFromKeeps(db, account, day, warrantyDays, id + 1);
      } else {
        var one := BanOne(db, account, id, day, warrantyDays);
        if one.Done? {
          BanOneKeeps(db, account, id, day, warrantyDays);
          BanFromKeeps(one.value, account, day, warrantyDays, id + 1);
        }
      }
    }
  }

  lemma BanOneKeeps(db: Db, account: int, id: int, day: int, warrantyDays: int)
    requires id in db.subs
    ensures var o := BanOne(db, account, id, day, warrantyDays);
      o.Done? ==> Keeps(db, o.value) && o.value.departures == db.departures
  {
    var mid := Superseded(db, id);
    assert Keeps(db, mid);
    var k := NewCase(mid, account, id, day, warrantyDays, AccountBan);
    assert Keeps(mid, InsertCase(mid, k));
    KeepsTransitive(db, mid, InsertCase(mid, k));
  }

  lemma BanKeeps(db: Db, account: int, day: int, warrantyDays: int)
    ensures var o := BanAccount(db, account, day, warrantyDays);
      o.Done? ==> Keeps(db, o.value) && o.value.departures == db.departures
  {
    if account in db.accounts {
      var bannedOn := if db.accounts[account].bannedOn.Some? then db.accounts[account].bannedOn.value else day;
      var marked := db.(accounts := db.accounts[account := db.accounts[account].(bannedOn := Some(bannedOn))]);
      assert Keeps(db, marked);
      BanFromKeeps(marked, account, bannedOn, warrantyDays, 0);
    }
  }

  lemma UndoKeeps(db: Db, id: int, now: Instant)
    requires id in db.cases && db.cases[id].source == AccountBan
    ensures var o := UndoRefund(db, id, now); o.Done? ==> Keeps(db, o.value) && o.value.departures == db.departures
    ensures var o := RefundBan(db, id, now); o.Done? ==> Keeps(db, o.value) && o.value.departures == db.departures
  {
  }

  lemma RequestKeeps(db: Db, id: int, requestedAt: Instant, expiresAt: Instant, warrantyDays: int)
    ensures var o := RequestCancellation(db, id, requestedAt, expiresAt, warrantyDays);
      o.Done? ==> Keeps(db, o.value) && o.value.departures == db.departures
  {
    var o := RequestCancellation(db, id, requestedAt, expiresAt, warrantyDays);
    if o.Done? {
      var k := NewCase(db, SeatAccount(db, db.subs[id]).value, id, requestedAt.day, warrantyDays, CustomerCancellation);
      assert Keeps(db, InsertCase(db, k));
      assert Keeps(InsertCase(db, k), o.value);
    }
  }

  predicate Departing(op: Op) {
    op.Archive? || op.Remove? || (op.MarkRefunded? && op.refunded)
  }

  lemma InsertKeeps(db: Db, seat: Option<int>, now: Instant)
    requires Refs(db)
    ensures Keeps(db, After(db, Insert(seat), now)) && After(db, Insert(seat), now).departures == db.departures
  {
    forall s | s in db.subs ensures s < db.nextSub { assert RowRefs(db, s); }
  }

  lemma RowOpsKeep(db: Db, op: Op, now: Instant)
    requires op.Move? || op.EditFreeze? || op.Delete? || op.Defer? || op.Restore? || op.ExpireCancellations?
    ensures Keeps(db, After(db, op, now)) && After(db, op, now).departures == db.departures
  {
  }

  lemma CaseOpsKeep(db: Db, op: Op, now: Instant)
    requires op.Ban? || op.RequestCancel? || op.EditCase? || op.MoveAffected? || (op.MarkRefunded? && !op.refunded)
    ensures Keeps(db, After(db, op, now)) && After(db, op, now).departures == db.departures
  {
    match op
    case Ban(account, day, warrantyDays) => BanKeeps(db, account, day, warrantyDays);
    case RequestCancel(id, expiresAt, warrantyDays) => RequestKeeps(db, id, now, expiresAt, warrantyDays);
    case MarkRefunded(id, refunded, freezeAt) =>
      if id in db.cases && db.cases[id].source == AccountBan { UndoKeeps(db, id, now); }
    case _ =>
  }

  lemma TableOpsKeep(db: Db, op: Op, now: Instant)
    requires op.NewAccount? || op.Pause? || op.NewSeat? || op.DropSeat? || op.Pay? || op.EditBill? || op.DropBill?
    requires Refs(db)
    ensures Keeps(db, After(db, op, now)) && After(db, op, now).departures == db.departures
  {
    hide RefundTotal, ProratedRefund, RemainingDays;
  }

  lemma OthersKeep(db: Db, op: Op, now: Instant)
    requires Refs(db) && !Departing(op)
    ensures Keeps(db, After(db, op, now)) && After(db, op, now).departures == db.departures
  {
    if op.Insert? {
      InsertKeeps(db, op.seat, now);
    } else if op.Move? || op.EditFreeze? || op.Delete? || op.Defer? || op.Restore? || op.ExpireCancellations? {
      RowOpsKeep(db, op, now);
    } else if op.Ban? || op.RequestCancel? || op.EditCase? || op.MoveAffected? || op.MarkRefunded? {
      CaseOpsKeep(db, op, now);
    } else {
      TableOpsKeep(db, op, now);
    }
  }

  // ---- every transaction, every run

  lemma StepKeepsLog(db: Db, op: Op, now: Instant, clock: Instant)
    requires CaseRules(db) && Logged(db, clock) && !now.Before(clock)
    ensures Logged(After(db, op, now), now)
  {
    LogStays(db, db, clock, now);
    if !Departing(op) {
      OthersKeep(db, op, now);
      LogStays(db, After(db, op, now), clock, now);
    } else {
      match op
      case Archive(id, freezeUntil, expiry) => ArchiveKeepsLog(db, id, now, freezeUntil, expiry, clock);
      case Remove(items, freezeDays) => RemoveKeepsLog(db, items, 0, now, now.AddDays(freezeDays), clock);
      case MarkRefunded(id, refunded, freezeAt) =>
        if id in db.cases && db.cases[id].source == AccountBan {
          UndoKeeps(db, id, now);
          LogStays(db, After(db, op, now), clock, now);
        } else {
          CompleteKeepsLog(db, id, now, freezeAt, clock);
        }
    }
  }

  lemma {:induction false} RunKeepsLog(db: Db, events: seq<Event>, start: Instant)
    requires CaseRules(db) && Logged(db, start) && Timely(events, start)
    ensures Logged(Run(db, events), LastClock(events, start))
    decreases |events|
  {
    if events != [] {
      StepKeepsLog(db, events[0].op, events[0].at, start);
      StepKeepsCaseRules(db, events[0].op, events[0].at);
      RunKeepsLog(After(db, events[0].op, events[0].at), events[1..], events[0].at);
    }
  }

  lemma FiveSpanTheWindow(log: seq<Departure>, clock: Instant, a: int, b: int, c: int, d: int, e: int)
    requires InOrder(log, clock) && WithinAllowance(log)
    requires 0 <= a < b < c < d < e < |log| && log[e].immediate
    requires log[a].account == log[b].account == log[c].account == log[d].account == log[e].account
    ensures log[a].at.AddDays(RELEASE_WINDOW_DAYS).Before(log[e].at)
  {
    if !log[a].at.AddDays(RELEASE_WINDOW_DAYS).Before(log[e].at) {
      AtLeastFour(Window(log, e), a, b, c, d);
    }
  }

  lemma AtLeastFour(window: set<int>, a: int, b: int, c: int, d: int)
    requires a < b < c < d && a in window && b in window && c in window && d in window
    ensures 4 <= |window|
  {
    Collections.SubsetSize({a, b, c, d}, window);
  }

  /** Whatever happens, five departures of one account of which the last was released at once span more than
      30 days; removals confirmed together at one moment are no exception. */
  lemma FiveReleasesSpanMoreThanThirtyDays(
    events: seq<Event>, start: Instant, a: int, b: int, c: int, d: int, e: int)
    requires Timely(events, start)
    requires var log := Run(EmptyDb(), events).departures;
      && 0 <= a < b < c < d < e < |log| && log[e].immediate
      && log[a].account == log[b].account == log[c].account == log[d].account == log[e].account
    ensures var log := Run(EmptyDb(), events).departures;
      log[a].at.AddDays(RELEASE_WINDOW_DAYS).Before(log[e].at)
  {
    RunKeepsLog(EmptyDb(), events, start);
    FiveSpanTheWindow(Run(EmptyDb(), events).departures, LastClock(events, start), a, b, c, d, e);
  }
}
