/** Transactions that undo one another, and repeating a ban. */
module LifecycleRoundTrips {
  import opened Instants
  import opened Lifecycles
  import opened Transactions
  import opened LifecycleLaws
  import opened LifecycleSeats
  import opened LifecycleMoney

  /** Undoing a refund at any later moment before anything else happened brings back every table exactly as
      it was, unless the account has been paused: nobody else can have come by the seat. */
  lemma UndoRestoresEverything(db: Db, id: int, at: Instant, now: Instant)
    requires CaseRules(db) && Exclusive(db.subs, at) && !now.Before(at)
    requires id in db.cases && db.cases[id].source == AccountBan && RefundBan(db, id, at).Done?
    ensures db.cases[id].account in db.accounts
    ensures UndoRefund(RefundBan(db, id, at).value, id, now)
         == if db.accounts[db.cases[id].account].paused then Refused(AccountPaused) else Done(db)
  {
    var next := RefundBan(db, id, at).value;
    var s := db.cases[id].sub;
    assert SubRules(db, s);
    assert CaseRule(db, id) && BanLink(db, id);
    NoCancellationBesideOpen(db, id, s);
    var seat := db.subs[s].seat.value;
    assert Holding(db.subs, s, seat, at);
    forall r | r in next.subs && r != s && next.subs[r].seat == Some(seat)
      ensures !next.subs[r].Active() && !next.subs[r].Holds(now)
    {
      assert !Holding(db.subs, r, seat, at);
    }
    if !db.accounts[db.cases[id].account].paused {
      var back := UndoRefund(next, id, now).value;
      assert back.subs == db.subs;
      assert back.cases == db.cases;
    }
  }

  /** What a granted request writes: one open case and the customer's link to it. */
  ghost predicate IsRequest(db: Db, next: Db, id: int, expiresAt: Instant) {
    && id in db.subs && db.subs[id].Active() && db.subs[id].cancelCase.None?
    && db.nextCase in next.cases && next.cases == db.cases[db.nextCase := next.cases[db.nextCase]]
    && next.cases[db.nextCase].source == CustomerCancellation && next.cases[db.nextCase].Open()
    && next.cases[db.nextCase].sub == id
    && next == db.(cases := next.cases, nextCase := db.nextCase + 1, subs := db.subs[id :=
         db.subs[id].(cancelExpires := Some(expiresAt), cancelCase := Some(db.nextCase))])
  }

  lemma ExpiryErasesRequest(db: Db, next: Db, id: int, expiresAt: Instant, now: Instant)
    requires CaseRules(db) && CaseRules(next) && IsRequest(db, next, id, expiresAt) && !now.Before(expiresAt)
    ensures RestoreExpired(next, now) == RestoreExpired(db, now).(nextCase := db.nextCase + 1)
  {
    SameCasesAfterExpiry(db, next, id, expiresAt, now);
    SameRowsAfterExpiry(db, next, id, expiresAt, now);
  }

  lemma SameCasesAfterExpiry(db: Db, next: Db, id: int, expiresAt: Instant, now: Instant)
    requires CaseRules(db) && CaseRules(next) && IsRequest(db, next, id, expiresAt) && !now.Before(expiresAt)
    ensures RestoreExpired(next, now).cases == RestoreExpired(db, now).cases
  {
    hide ExpiredCase, CaseRules;
    forall c | c in db.cases
      ensures c != db.nextCase && c in next.cases && (ExpiredCase(next, c, now) <==> ExpiredCase(db, c, now))
    {
      SameExpiry(db, next, id, expiresAt, c, now);
    }
    ExpiredCaseOwner(next, db.nextCase, now);
  }

  lemma SameRowsAfterExpiry(db: Db, next: Db, id: int, expiresAt: Instant, now: Instant)
    requires CaseRules(db) && IsRequest(db, next, id, expiresAt) && !now.Before(expiresAt)
    ensures RestoreExpired(next, now).subs == RestoreExpired(db, now).subs
  {
    hide ExpiredCase;
    assert SubRules(db, id);
  }

  lemma SameExpiry(db: Db, next: Db, id: int, expiresAt: Instant, c: int, now: Instant)
    requires CaseRules(db) && CaseRules(next) && IsRequest(db, next, id, expiresAt) && c in db.cases
    ensures c != db.nextCase && c in next.cases && (ExpiredCase(next, c, now) <==> ExpiredCase(db, c, now))
  {
    hide ExpiredCase;
    IdsBelow(db);
    ExpiredCaseOwner(next, c, now);
    ExpiredCaseOwner(db, c, now);
    assert CaseRefs(db, c);
  }

  /** A cancellation nobody processed leaves nothing behind but a used case number: the sweep after its
      grace period ends in the tables it would have ended in without the request. */
  lemma UnprocessedCancellationLeavesNoTrace(
    db: Db, id: int, requestedAt: Instant, expiresAt: Instant, warrantyDays: int, now: Instant)
    requires CaseRules(db) && RequestCancellation(db, id, requestedAt, expiresAt, warrantyDays).Done?
    requires !now.Before(expiresAt)
    ensures RestoreExpired(RequestCancellation(db, id, requestedAt, expiresAt, warrantyDays).value, now)
         == RestoreExpired(db, now).(nextCase := db.nextCase + 1)
  {
    hide CaseRules, RestoreExpired, HasFuturePaid, CaseRecorded, SeatAccount, HasOpenCase;
    var next := RequestCancellation(db, id, requestedAt, expiresAt, warrantyDays).value;
    RequestKeepsRules(db, id, requestedAt, expiresAt, warrantyDays);
    ExpiryErasesRequest(db, next, id, expiresAt, now);
  }

  /** Resuming an owner undoes pausing one none of whose accounts was paused. */
  lemma ResumingUndoesPausing(db: Db, owned: set<int>)
    ensures SetPaused(SetPaused(db, owned, true), owned, false) == db <==>
            forall a :: a in db.accounts && a in owned ==> !db.accounts[a].paused
  {
    var back := SetPaused(SetPaused(db, owned, true), owned, false);
    assert forall a :: a in db.accounts && a in owned ==> back.accounts[a] == db.accounts[a].(paused := false);
    if forall a :: a in db.accounts && a in owned ==> !db.accounts[a].paused {
      assert back.accounts == db.accounts;
    }
  }

  /** Deleting a seat is allowed exactly when no customer, past or present, was ever left on it, so the
      departures that the release allowance counts stay as they are. */
  lemma DeletingSeatForgetsNothing(db: Db, seat: int)
    ensures DeleteSeat(db, seat).Done? <==>
      seat in db.seats && forall s :: s in db.subs ==> db.subs[s].seat != Some(seat)
    ensures DeleteSeat(db, seat).Done? ==>
      var next := DeleteSeat(db, seat).value;
      && (forall s :: s in db.subs ==> SeatAccount(next, db.subs[s]) == SeatAccount(db, db.subs[s]))
      && (forall account, except, at ::
        RecentDepartures(next, account, except, at) == RecentDepartures(db, account, except, at))
  {
  }

  /** Withdrawing a bill right after recording it leaves nothing but a used bill number and an ended deferral. */
  lemma WithdrawingUndoesRecording(db: Db, sub: int, due: int, amountCents: int)
    requires Refs(db) && AddBill(db, sub, due, amountCents).Done?
    requires forall b :: b in db.bills ==> db.bills[b].sub != sub || db.bills[b].due != due
    ensures DeleteBill(AddBill(db, sub, due, amountCents).value, db.nextBill)
         == Done(db.(nextBill := db.nextBill + 1, subs := db.subs[sub := db.subs[sub].(deferred := false)]))
  {
    var recorded := AddBill(db, sub, due, amountCents).value;
    assert db.nextBill !in db.bills;
    forall c | c in db.cases ensures db.cases[c].bill != Some(db.nextBill) { assert CaseRefs(db, c); }
    assert recorded.bills - {db.nextBill} == db.bills;
    var next := DeleteBill(recorded, db.nextBill).value;
    assert next.subs == db.subs[sub := db.subs[sub].(deferred := false)];
  }

  /** A bill can be corrected, or withdrawn, exactly while no case was computed from it; corrections replace
      one another and leave no trace of the amounts in between. */
  lemma BillsEditableExactly(db: Db, bill: int, amountCents: int, later: int)
    requires Refs(db) && bill in db.bills && 0 <= amountCents && 0 <= later
    ensures UpdateBill(db, bill, amountCents).Done? <==> forall c :: c in db.cases ==> db.cases[c].bill != Some(bill)
    ensures DeleteBill(db, bill).Done? <==> UpdateBill(db, bill, amountCents).Done?
    ensures UpdateBill(db, bill, amountCents).Done? ==>
      && UpdateBill(UpdateBill(db, bill, amountCents).value, bill, later) == UpdateBill(db, bill, later)
      && UpdateBill(UpdateBill(db, bill, amountCents).value, bill, db.bills[bill].amountCents)
         == if db.bills[bill].amountCents < 0 then Refused(InvalidAmount) else Done(db)
  {
    if UpdateBill(db, bill, amountCents).Done? {
      var next := UpdateBill(db, bill, amountCents).value;
      assert next.bills[bill := next.bills[bill].(amountCents := later)]
        == db.bills[bill := db.bills[bill].(amountCents := later)];
      assert next.bills[bill := next.bills[bill].(amountCents := db.bills[bill].amountCents)] == db.bills;
    }
  }

  // ---- repeating a ban

  /** Nothing is left for a ban on `day` to do about this subscription. */
  ghost predicate Handled(db: Db, account: int, s: int, day: int) {
    && s in db.subs && !db.subs[s].deferred && db.subs[s].cancelCase.None?
    && !HasFuturePaid(db, s, day) && CaseRecorded(db.cases, account, s, day)
  }

  lemma QuietKeepsFuturePaid(db: Db, next: Db, s: int, day: int)
    requires Money(db) && Quiet(db, next) && !HasFuturePaid(db, s, day)
    ensures !HasFuturePaid(next, s, day)
  {
    QuietKeepsMoney(db, next);
    forall b | b in next.bills && next.bills[b].sub == s && next.bills[b].due > day
      ensures next.bills[b].amountCents <= RefundTotal(next.cases, b, -1, next.nextCase)
    {
      assert GivenBack(next, b) == GivenBack(db, b);
    }
  }

  lemma BanOneIsQuiet(db: Db, account: int, id: int, day: int, warrantyDays: int)
    requires CaseRules(db) && Money(db) && id in db.subs && BanOne(db, account, id, day, warrantyDays).Done?
    ensures Quiet(db, BanOne(db, account, id, day, warrantyDays).value)
  {
    var mid, next := Superseded(db, id), BanOne(db, account, id, day, warrantyDays).value;
    IdsBelow(db);
    SupersededIsQuiet(db, id);
    QuietKeepsMoney(db, mid);
    if db.subs[id].cancelCase.Some? { SupersedeKeepsRules(db, id); }
    if next != mid {
      var k := NewCase(mid, account, id, day, warrantyDays, AccountBan);
      NewCasePaidOnce(mid, account, id, day, warrantyDays, AccountBan);
      InsertedIsQuiet(mid, next, k);
    }
  }

  lemma BanOneHandles(db: Db, account: int, id: int, day: int, warrantyDays: int)
    requires CaseRules(db) && Money(db) && Affected(db, account, id) && BanOne(db, account, id, day, warrantyDays).Done?
    ensures var next := BanOne(db, account, id, day, warrantyDays).value;
      && Handled(next, account, id, day) && next.nextSub == db.nextSub && next.accounts == db.accounts
      && (forall s :: Affected(next, account, s) <==> Affected(db, account, s))
      && (forall s :: Handled(db, account, s, day) ==> Handled(next, account, s, day))
  {
    hide HasFuturePaid, Quiet, Money, RefundTotal, RefundShare, ProratedRefund;
    var mid, next := Superseded(db, id), BanOne(db, account, id, day, warrantyDays).value;
    IdsBelow(db);
    assert SubRules(db, id);
    BanOneIsQuiet(db, account, id, day, warrantyDays);
    QuietKeepsFuturePaid(db, next, id, day);
    assert CaseRecorded(next.cases, account, id, day) by {
      if next != mid { assert mid.nextCase in next.cases; }
    }
    forall s | Handled(db, account, s, day) && s != id ensures Handled(next, account, s, day) {
      HandledStays(db, next, account, id, s, day);
    }
  }

  /** What is done about one subscription stays done while another one is handled. */
  lemma HandledStays(db: Db, next: Db, account: int, id: int, s: int, day: int)
    requires Money(db) && Quiet(db, next) && Handled(db, account, s, day) && s in next.subs
    requires next.subs[s] == db.subs[s]
    requires forall c :: c in db.cases && db.cases[c].sub != id ==> c in next.cases && next.cases[c] == db.cases[c]
    requires s != id
    ensures Handled(next, account, s, day)
  {
    QuietKeepsFuturePaid(db, next, s, day);
    var c :| c in db.cases && db.cases[c].account == account && db.cases[c].sub == s && db.cases[c].eventDay == day;
    assert c in next.cases && next.cases[c] == db.cases[c];
  }

  lemma BanFromHandles(db: Db, account: int, day: int, warrantyDays: int, id: int)
    requires CaseRules(db) && Money(db) && account in db.accounts && db.accounts[account].bannedOn == Some(day)
    requires forall s :: s < id && Affected(db, account, s) ==> Handled(db, account, s, day)
    ensures var o := BanFrom(db, account, day, warrantyDays, id);
      o.Done? ==>
        && o.value.accounts == db.accounts
        && forall s :: Affected(o.value, account, s) ==> Handled(o.value, account, s, day)
    decreases db.nextSub - id
  {
    if id >= db.nextSub {
      forall s | Affected(db, account, s) ensures s < id { assert RowRefs(db, s); }
    } else if !Affected(db, account, id) {
      BanFromHandles(db, account, day, warrantyDays, id + 1);
    } else {
      var one := BanOne(db, account, id, day, warrantyDays);
      if one.Done? {
        BanOneHandles(db, account, id, day, warrantyDays);
        BanOneKeepsRules(db, account, id, day, warrantyDays);
        BanOneKeepsMoney(db, account, id, day, warrantyDays);
        BanFromHandles(one.value, account, day, warrantyDays, id + 1);
      }
    }
  }

  lemma {:induction false} HandledNeedsNothing(db: Db, account: int, day: int, warrantyDays: int, id: int)
    requires forall s :: Affected(db, account, s) ==> Handled(db, account, s, day)
    ensures BanFrom(db, account, day, warrantyDays, id) == Done(db)
    decreases db.nextSub - id
  {
    if id < db.nextSub {
      if Affected(db, account, id) { assert BanOne(db, account, id, day, warrantyDays) == Done(db); }
      HandledNeedsNothing(db, account, day, warrantyDays, id + 1);
    }
  }

  /** Banning an account again, on whatever day and warranty, changes nothing: the first ban date is kept and
      every affected customer already has a case for it. */
  lemma BanningTwiceChangesNothing(db: Db, account: int, day: int, warrantyDays: int, laterDay: int, laterWarranty: int)
    requires CaseRules(db) && Money(db) && BanAccount(db, account, day, warrantyDays).Done?
    ensures var banned := BanAccount(db, account, day, warrantyDays).value;
      BanAccount(banned, account, laterDay, laterWarranty) == Done(banned)
  {
    var bannedOn := if db.accounts[account].bannedOn.Some? then db.accounts[account].bannedOn.value else day;
    var marked := db.(accounts := db.accounts[account := db.accounts[account].(bannedOn := Some(bannedOn))]);
    RefsAfterAccounts(db, marked);
    UntouchedKeepsRules(db, marked);
    SameLedgerKeepsMoney(db, marked);
    forall s | s in marked.subs ensures 0 <= s { assert RowRefs(marked, s); }
    BanFromHandles(marked, account, bannedOn, warrantyDays, 0);
    var banned := BanAccount(db, account, day, warrantyDays).value;
    HandledNeedsNothing(banned, account, bannedOn, laterWarranty, 0);
    assert banned.accounts[account := banned.accounts[account].(bannedOn := Some(bannedOn))] == banned.accounts;
  }
}
