/** What every transaction of the lifecycle keeps about references, after-sales cases and cancellation links. */
module LifecycleLaws {
  import opened Instants
  import opened Lifecycles

  // ---- the invariants

  ghost predicate RowRefs(db: Db, s: int)
    requires s in db.subs
  {
    0 <= s < db.nextSub && (db.subs[s].seat.Some? ==> db.subs[s].seat.value in db.seats)
  }

  ghost predicate CaseRefs(db: Db, c: int)
    requires c in db.cases
  {
    var k := db.cases[c];
    && 0 <= c < db.nextCase && k.sub in db.subs
    && (k.bill.Some? ==> k.bill.value in db.bills && db.bills[k.bill.value].sub == k.sub)
  }

  /** Every reference between the tables resolves. */
  ghost predicate Refs(db: Db) {
    && 0 <= db.nextSub && 0 <= db.nextSeat && 0 <= db.nextCase && 0 <= db.nextBill
    && (forall s :: s in db.subs ==> RowRefs(db, s))
    && (forall c :: c in db.cases ==> CaseRefs(db, c))
    && (forall t :: t in db.seats ==> 0 <= t < db.nextSeat && db.seats[t] in db.accounts)
    && (forall b :: b in db.bills ==> 0 <= b < db.nextBill && db.bills[b].sub in db.subs)
  }

  predicate OpenCancellation(cases: map<int, Case>, c: int, sub: int) {
    c in cases && cases[c].sub == sub && cases[c].source == CustomerCancellation && cases[c].Open()
  }

  /** A ban case still belongs to the account of the customer's seat and carries that account's one ban
      date, which is how a repeated ban finds it again. */
  ghost predicate BanLink(db: Db, c: int)
    requires c in db.cases && db.cases[c].sub in db.subs
  {
    var k := db.cases[c];
    && SeatAccount(db, db.subs[k.sub]) == Some(k.account)
    && k.account in db.accounts && db.accounts[k.account].bannedOn == Some(k.eventDay)
  }

  ghost predicate CaseRule(db: Db, c: int)
    requires c in db.cases && db.cases[c].sub in db.subs
  {
    var k := db.cases[c];
    && (k.Open() ==> db.subs[k.sub].Active() && (k.status == Review <==> k.bill.None?))
    && (k.Open() && k.source == CustomerCancellation ==> db.subs[k.sub].cancelCase == Some(c))
    && (k.status == Refunded ==> db.subs[k.sub].archivedAt.Some?)
    && (k.source == AccountBan && (k.Open() || k.status == Refunded) ==> BanLink(db, c))
    && (k.source == AccountBan && k.status == Refunded ==> db.subs[k.sub].frozenUntil.None?)
  }

  /** Both open or both refunded, and of the same subscription: the same case. */
  ghost predicate Unrivalled(cases: map<int, Case>, c: int, d: int)
    requires c in cases && d in cases
  {
    (cases[c].Open() && cases[d].Open()) || (cases[c].status == Refunded && cases[d].status == Refunded) ==> c == d
  }

  ghost predicate SubRules(db: Db, s: int)
    requires s in db.subs
  {
    var row := db.subs[s];
    && (row.cancelCase.Some? ==> OpenCancellation(db.cases, row.cancelCase.value, s))
    && (row.cancelExpires.Some? <==> row.cancelCase.Some?)
    && (row.archivedAt.None? ==> row.frozenUntil.None?)
    && (row.frozenUntil.Some? ==> row.seat.Some?)
    && (forall c :: c in db.cases && db.cases[c].sub == s ==> CaseRule(db, c))
    && (forall c, d :: c in db.cases && d in db.cases && db.cases[c].sub == s && db.cases[d].sub == s ==>
      Unrivalled(db.cases, c, d))
  }

  ghost predicate CaseRules(db: Db) {
    Refs(db) && forall s :: s in db.subs ==> SubRules(db, s)
  }

  // ---- locality: the rules of one subscription read only its own row and cases

  ghost predicate SameCases(db: Db, next: Db, s: int) {
    forall c ::
      && (c in db.cases && db.cases[c].sub == s ==> c in next.cases && next.cases[c] == db.cases[c])
      && (c in next.cases && next.cases[c].sub == s ==> c in db.cases && db.cases[c] == next.cases[c])
  }

  /** Accounts are never dropped and a ban is never lifted or redated; seats stay with their account. */
  ghost predicate Grounded(db: Db, next: Db) {
    && (forall a :: a in db.accounts ==>
          a in next.accounts
            && (db.accounts[a].bannedOn.Some? ==> next.accounts[a].bannedOn == db.accounts[a].bannedOn))
    && (forall t :: t in db.seats && t in next.seats ==> next.seats[t] == db.seats[t])
  }

  lemma RulesCarryOver(db: Db, next: Db, s: int)
    requires s in db.subs && s in next.subs && SubRules(db, s) && RowRefs(next, s)
    requires next.subs[s] == db.subs[s] && SameCases(db, next, s) && Grounded(db, next)
    ensures SubRules(next, s)
  {
    forall c | c in next.cases && next.cases[c].sub == s ensures CaseRule(next, c) {
      assert CaseRule(db, c);
      var k := db.cases[c];
      if k.source == AccountBan && (k.Open() || k.status == Refunded) {
        assert BanLink(db, c);
        var seat := db.subs[s].seat.value;
        assert seat in db.seats && seat in next.seats;
      }
    }
    forall c, d | c in next.cases && d in next.cases && next.cases[c].sub == s && next.cases[d].sub == s
      ensures Unrivalled(next.cases, c, d)
    {
      assert Unrivalled(db.cases, c, d);
    }
  }

  /** A transaction that touches one subscription and its cases has to answer for that one only. */
  ghost predicate OnlyTouches(db: Db, next: Db, s: int) {
    && Grounded(db, next)
    && (forall r :: r in db.subs ==> r in next.subs)
    && (forall r :: r in next.subs && r != s ==> r in db.subs && next.subs[r] == db.subs[r])
    && (forall c :: c in db.cases && db.cases[c].sub != s ==> c in next.cases && next.cases[c] == db.cases[c])
    && (forall c :: c in next.cases && next.cases[c].sub != s ==> c in db.cases && db.cases[c] == next.cases[c])
  }

  lemma OneTouchedKeepsRules(db: Db, next: Db, s: int)
    requires CaseRules(db) && Refs(next) && OnlyTouches(db, next, s)
    requires s in next.subs ==> SubRules(next, s)
    ensures CaseRules(next)
  {
    forall r | r in next.subs ensures SubRules(next, r) {
      if r != s {
        assert SubRules(db, r);
        assert RowRefs(next, r);
        assert SameCases(db, next, r);
        RulesCarryOver(db, next, r);
      }
    }
  }

  lemma UntouchedKeepsRules(db: Db, next: Db)
    requires CaseRules(db) && Refs(next) && Grounded(db, next) && next.subs == db.subs && next.cases == db.cases
    ensures CaseRules(next)
  {
    forall s | s in next.subs ensures SubRules(next, s) {
      assert SubRules(db, s);
      assert RowRefs(next, s);
      RulesCarryOver(db, next, s);
    }
  }

  // ---- seats, accounts and bills

  lemma InsertKeepsRules(db: Db, seat: Option<int>, now: Instant)
    requires CaseRules(db)
    ensures var o := InsertSubscription(db, seat, now); o.Done? ==> CaseRules(o.value)
  {
    var o := InsertSubscription(db, seat, now);
    if o.Done? {
      RefsAfterRow(db, o.value, db.nextSub);
      forall r | r in db.subs ensures r < db.nextSub { assert RowRefs(db, r); }
      forall c | c in db.cases ensures db.cases[c].sub != db.nextSub { assert CaseRefs(db, c); }
      OneTouchedKeepsRules(db, o.value, db.nextSub);
    }
  }

  /** Writing one subscription row, and nothing else, keeps references intact. */
  lemma RefsAfterRow(db: Db, next: Db, s: int)
    requires Refs(db) && s in next.subs && RowRefs(next, s)
    requires next == db.(subs := db.subs[s := next.subs[s]], nextSub := next.nextSub, departures := next.departures)
    requires db.nextSub <= next.nextSub
    ensures Refs(next)
  {
    forall r | r in next.subs ensures RowRefs(next, r) {
      if r != s { assert RowRefs(db, r); }
    }
    forall c | c in next.cases ensures CaseRefs(next, c) { assert CaseRefs(db, c); }
  }

  /** Rewriting a row without changing its activity, seat or cancellation. */
  lemma RowEditKeepsRules(db: Db, next: Db, s: int)
    requires CaseRules(db) && s in db.subs && s in next.subs
    requires next == db.(subs := db.subs[s := next.subs[s]])
    requires next.subs[s].seat == db.subs[s].seat && next.subs[s].cancelExpires == db.subs[s].cancelExpires
    requires next.subs[s].cancelCase == db.subs[s].cancelCase && next.subs[s].archivedAt == db.subs[s].archivedAt
    requires next.subs[s].deletedAt == db.subs[s].deletedAt || db.subs[s].archivedAt.Some?
    requires next.subs[s].frozenUntil == db.subs[s].frozenUntil
      || (db.subs[s].archivedAt.Some? && db.subs[s].frozenUntil.Some?)
    ensures CaseRules(next)
  {
    assert RowRefs(db, s);
    RefsAfterRow(db, next, s);
    assert SubRules(db, s);
    forall c | c in next.cases && next.cases[c].sub == s ensures CaseRule(next, c) {
      assert CaseRule(db, c);
    }
    forall c, d | c in next.cases && d in next.cases && next.cases[c].sub == s && next.cases[d].sub == s
      ensures Unrivalled(next.cases, c, d)
    {
      assert Unrivalled(db.cases, c, d);
    }
    OneTouchedKeepsRules(db, next, s);
  }

  lemma RowOpsKeepRules(db: Db, id: int, until: Instant, now: Instant, current: bool)
    requires CaseRules(db)
    ensures var o := UpdateFrozenUntil(db, id, until, now); o.Done? ==> CaseRules(o.value)
    ensures var o := SoftDelete(db, id, now); o.Done? ==> CaseRules(o.value)
    ensures var o := DeferRenewal(db, id, current); o.Done? ==> CaseRules(o.value)
    ensures var o := RestoreRenewal(db, id); o.Done? ==> CaseRules(o.value)
  {
    var freeze, gone := UpdateFrozenUntil(db, id, until, now), SoftDelete(db, id, now);
    var deferred, restored := DeferRenewal(db, id, current), RestoreRenewal(db, id);
    if freeze.Done? { RowEditKeepsRules(db, freeze.value, id); }
    if gone.Done? { RowEditKeepsRules(db, gone.value, id); }
    if deferred.Done? { RowEditKeepsRules(db, deferred.value, id); }
    if restored.Done? { RowEditKeepsRules(db, restored.value, id); }
  }

  lemma MoveKeepsRules(db: Db, id: int, seat: Option<int>, now: Instant)
    requires CaseRules(db)
    ensures var o := MoveSubscription(db, id, seat, now); o.Done? ==> CaseRules(o.value)
  {
    var o := MoveSubscription(db, id, seat, now);
    if o.Done? {
      var next := o.value;
      assert RowRefs(db, id) && SubRules(db, id);
      RefsAfterRow(db, next, id);
      forall c | c in next.cases && next.cases[c].sub == id ensures CaseRule(next, c) {
        assert CaseRule(db, c);
      }
      forall c, d | c in next.cases && d in next.cases && next.cases[c].sub == id && next.cases[d].sub == id
        ensures Unrivalled(next.cases, c, d)
      {
        assert Unrivalled(db.cases, c, d);
      }
      OneTouchedKeepsRules(db, next, id);
    }
  }

  lemma AccountOpsKeepRules(db: Db, account: int, owned: set<int>, paused: bool)
    requires CaseRules(db)
    ensures var o := AddAccount(db, account, paused); o.Done? ==> CaseRules(o.value)
    ensures CaseRules(SetPaused(db, owned, paused))
  {
    var o := AddAccount(db, account, paused);
    if o.Done? {
      RefsAfterAccounts(db, o.value);
      UntouchedKeepsRules(db, o.value);
    }
    RefsAfterAccounts(db, SetPaused(db, owned, paused));
    UntouchedKeepsRules(db, SetPaused(db, owned, paused));
  }

  lemma RefsAfterAccounts(db: Db, next: Db)
    requires Refs(db) && next == db.(accounts := next.accounts) && db.accounts.Keys <= next.accounts.Keys
    ensures Refs(next)
  {
    forall s | s in next.subs ensures RowRefs(next, s) { assert RowRefs(db, s); }
    forall c | c in next.cases ensures CaseRefs(next, c) { assert CaseRefs(db, c); }
  }

  lemma SeatOpsKeepRules(db: Db, account: int, seat: int)
    requires CaseRules(db)
    ensures var o := AddSeat(db, account); o.Done? ==> CaseRules(o.value)
    ensures var o := DeleteSeat(db, seat); o.Done? ==> CaseRules(o.value)
  {
    var added, dropped := AddSeat(db, account), DeleteSeat(db, seat);
    if added.Done? {
      RefsAfterSeats(db, added.value);
      UntouchedKeepsRules(db, added.value);
    }
    if dropped.Done? {
      RefsAfterSeats(db, dropped.value);
      UntouchedKeepsRules(db, dropped.value);
    }
  }

  lemma RefsAfterSeats(db: Db, next: Db)
    requires Refs(db) && next == db.(seats := next.seats, nextSeat := next.nextSeat) && 0 <= next.nextSeat
    requires forall t :: t in next.seats ==> 0 <= t < next.nextSeat && next.seats[t] in db.accounts
    requires forall s :: s in db.subs && db.subs[s].seat.Some? && db.subs[s].seat.value in db.seats ==>
      db.subs[s].seat.value in next.seats
    ensures Refs(next)
  {
    forall s | s in next.subs ensures RowRefs(next, s) { assert RowRefs(db, s); }
    forall c | c in next.cases ensures CaseRefs(next, c) { assert CaseRefs(db, c); }
  }

  lemma BillEditKeepsRules(db: Db, bill: int, amountCents: int)
    requires CaseRules(db)
    ensures var o := UpdateBill(db, bill, amountCents); o.Done? ==> CaseRules(o.value)
  {
    var o := UpdateBill(db, bill, amountCents);
    if o.Done? {
      RefsAfterBills(db, o.value);
      UntouchedKeepsRules(db, o.value);
    }
  }

  lemma RefsAfterBills(db: Db, next: Db)
    requires Refs(db) && next == db.(bills := next.bills, nextBill := next.nextBill) && 0 <= next.nextBill
    requires forall b :: b in next.bills ==> 0 <= b < next.nextBill && next.bills[b].sub in db.subs
    requires forall b :: b in db.bills && BillLinked(db.cases, b) ==>
      b in next.bills && next.bills[b].sub == db.bills[b].sub
    ensures Refs(next)
  {
    forall s | s in next.subs ensures RowRefs(next, s) { assert RowRefs(db, s); }
    forall c | c in next.cases ensures CaseRefs(next, c) {
      assert CaseRefs(db, c);
      var k := db.cases[c];
      if k.bill.Some? { assert BillLinked(db.cases, k.bill.value); }
    }
  }

  /** Recording and withdrawing a bill also clears the customer's renewal deferral. */
  lemma BillRowsKeepRules(db: Db, id: int, due: int, amountCents: int)
    requires CaseRules(db)
    ensures var o := AddBill(db, id, due, amountCents); o.Done? ==> CaseRules(o.value)
    ensures var o := DeleteBill(db, id); o.Done? ==> CaseRules(o.value)
  {
    var added, dropped := AddBill(db, id, due, amountCents), DeleteBill(db, id);
    if added.Done? && added.value != db {
      var mid := db.(bills := added.value.bills, nextBill := added.value.nextBill);
      RefsAfterBills(db, mid);
      UntouchedKeepsRules(db, mid);
      RowEditKeepsRules(mid, added.value, id);
    }
    if dropped.Done? {
      var mid := db.(bills := dropped.value.bills);
      RefsAfterBills(db, mid);
      UntouchedKeepsRules(db, mid);
      RowEditKeepsRules(mid, dropped.value, db.bills[id].sub);
    }
  }

  // ---- after-sales cases

  /** A transaction on one subscription that leaves bills, seats and accounts alone, and whose cases keep
      their subscription and bill. */
  lemma RefsAfterCases(db: Db, next: Db, s: int)
    requires Refs(db) && s in db.subs && s in next.subs && RowRefs(next, s)
    requires next == db.(subs := db.subs[s := next.subs[s]], cases := next.cases, nextCase := next.nextCase,
                         departures := next.departures)
    requires db.nextCase <= next.nextCase
    requires forall c :: c in next.cases ==> CaseRefs(next, c) || (c in db.cases && next.cases[c].sub == db.cases[c].sub
                                                                   && next.cases[c].bill == db.cases[c].bill)
    ensures Refs(next)
  {
    forall r | r in next.subs ensures RowRefs(next, r) {
      if r != s { assert RowRefs(db, r); }
    }
    forall c | c in next.cases ensures CaseRefs(next, c) {
      if c in db.cases && next.cases[c].sub == db.cases[c].sub && next.cases[c].bill == db.cases[c].bill {
        assert CaseRefs(db, c);
      }
    }
  }

  /** What the rules say about one subscription's cases, spelled out pairwise. */
  lemma SubRulesUnfold(db: Db, s: int)
    requires s in db.subs && SubRules(db, s)
    ensures forall c :: c in db.cases && db.cases[c].sub == s ==> CaseRule(db, c)
    ensures forall c, d :: c in db.cases && d in db.cases && db.cases[c].sub == s && db.cases[d].sub == s ==>
      Unrivalled(db.cases, c, d)
  {
  }

  lemma ArchiveRowKeepsRules(db: Db, id: int, at: Instant, freeze: Option<Instant>)
    requires CaseRules(db) && !HasOpenCase(db.cases, id)
    requires freeze.Some? ==> id in db.subs && db.subs[id].Active()
    ensures var o := ArchiveRow(db, id, at, None, freeze); o.Done? ==> CaseRules(o.value)
  {
    var o := ArchiveRow(db, id, at, None, freeze);
    if o.Done? {
      var next := o.value;
      assert RowRefs(db, id) && SubRules(db, id);
      RefsAfterRow(db, next, id);
      forall c | c in next.cases && next.cases[c].sub == id ensures CaseRule(next, c) {
        assert CaseRule(db, c);
      }
      SubRulesUnfold(db, id);
      OneTouchedKeepsRules(db, next, id);
    }
  }

  lemma DepartKeepsRules(db: Db, id: int, at: Instant, configured: Instant)
    requires CaseRules(db) && !HasOpenCase(db.cases, id)
    ensures var o := Depart(db, id, at, None, configured); o.Done? ==> CaseRules(o.value)
  {
    var freeze := FreezeDeadline(db, id, at, configured);
    var o := Depart(db, id, at, None, configured);
    if o.Done? {
      ArchiveRowKeepsRules(db, id, at, freeze.value);
      RulesIgnoreLog(ArchiveRow(db, id, at, None, freeze.value).value, o.value.departures);
      assert o.value == ArchiveRow(db, id, at, None, freeze.value).value.(departures := o.value.departures);
    }
  }

  lemma RulesIgnoreLog(db: Db, log: seq<Departure>)
    requires CaseRules(db)
    ensures CaseRules(db.(departures := log))
  {
    var next := db.(departures := log);
    forall s | s in next.subs ensures RowRefs(next, s) { assert RowRefs(db, s); }
    forall c | c in next.cases ensures CaseRefs(next, c) { assert CaseRefs(db, c); }
    UntouchedKeepsRules(db, next);
  }

  lemma ArchiveKeepsRules(db: Db, id: int, at: Instant, freezeUntil: Option<Instant>, expiry: Option<bool>)
    requires CaseRules(db)
    ensures var o := ArchiveSubscription(db, id, at, freezeUntil, expiry); o.Done? ==> CaseRules(o.value)
  {
    var o := ArchiveSubscription(db, id, at, freezeUntil, expiry);
    if o.Done? {
      if freezeUntil.Some? { DepartKeepsRules(db, id, at, freezeUntil.value); }
      else { ArchiveRowKeepsRules(db, id, at, None); }
    }
  }

  lemma RemoveKeepsRules(db: Db, items: seq<Removal>, k: nat, now: Instant, freezeUntil: Instant)
    requires CaseRules(db) && k <= |items|
    ensures var o := RemoveFrom(db, items, k, now, freezeUntil); o.Done? ==> CaseRules(o.value)
    decreases |items| - k
  {
    var o := RemoveFrom(db, items, k, now, freezeUntil);
    if o.Done? && k < |items| {
      DepartKeepsRules(db, items[k].sub, now, freezeUntil);
      RemoveKeepsRules(Depart(db, items[k].sub, now, None, freezeUntil).value, items, k + 1, now, freezeUntil);
    }
  }

  /** The state a completed cancellation ends in, with the two writes put together. */
  lemma CompletedCancellation(db: Db, id: int, at: Instant, freezeUntil: Instant)
    requires CaseRules(db) && CompleteCancellation(db, id, at, freezeUntil).Done?
    ensures var next := CompleteCancellation(db, id, at, freezeUntil).value;
      var s := db.cases[id].sub;
      && OpenCancellation(db.cases, id, s) && s in db.subs && db.subs[s].Active() && db.subs[s].cancelCase == Some(id)
      && s in next.subs && next.subs[s].archivedAt == Some(at) && next.subs[s].deletedAt.None?
      && next.subs[s].seat == db.subs[s].seat && next.subs[s].cancelCase.None? && next.subs[s].cancelExpires.None?
      && next == db.(cases := db.cases[id := db.cases[id].(status := Refunded)], subs := db.subs[s := next.subs[s]],
                     departures := next.departures)
  {
  }

  lemma CompleteCancellationKeepsRules(db: Db, id: int, at: Instant, freezeUntil: Instant)
    requires CaseRules(db)
    ensures var o := CompleteCancellation(db, id, at, freezeUntil); o.Done? ==> CaseRules(o.value)
  {
    var o := CompleteCancellation(db, id, at, freezeUntil);
    if o.Done? {
      CompletedCancellation(db, id, at, freezeUntil);
      var s := db.cases[id].sub;
      ClosedKeepsRules(db, o.value, id, s);
    }
  }

  /** Refunding the subscription's only open case and archiving it. */
  lemma ClosedKeepsRules(db: Db, next: Db, id: int, s: int)
    requires CaseRules(db) && id in db.cases && db.cases[id].sub == s && db.cases[id].Open() && s in db.subs
    requires s in next.subs
    requires db.cases[id].source == CustomerCancellation || db.subs[s].cancelCase.None?
    requires next == db.(cases := db.cases[id := db.cases[id].(status := Refunded)], subs := db.subs[s := next.subs[s]],
                         departures := next.departures)
    requires next.subs[s].archivedAt.Some? && next.subs[s].seat == db.subs[s].seat
    requires next.subs[s].cancelCase.None? && next.subs[s].cancelExpires.None?
    requires db.cases[id].source == AccountBan ==> next.subs[s].frozenUntil.None?
    requires next.subs[s].frozenUntil.Some? ==> next.subs[s].seat.Some?
    ensures CaseRules(next)
  {
    assert RowRefs(db, s) && SubRules(db, s);
    RefsAfterCases(db, next, s);
    SubRulesUnfold(db, s);
    forall c | c in next.cases && next.cases[c].sub == s ensures CaseRule(next, c) {
      assert CaseRule(db, c);
      assert Unrivalled(db.cases, c, id);
      if c == id && db.cases[c].source == AccountBan { assert BanLink(db, c); }
    }
    forall c, d | c in next.cases && d in next.cases && next.cases[c].sub == s && next.cases[d].sub == s
      ensures Unrivalled(next.cases, c, d)
    {
      assert Unrivalled(db.cases, c, d) && CaseRule(db, c) && CaseRule(db, d) && CaseRule(db, id);
    }
    OneTouchedKeepsRules(db, next, s);
  }

  lemma RefundBanKeepsRules(db: Db, id: int, at: Instant)
    requires CaseRules(db) && id in db.cases && db.cases[id].source == AccountBan
    ensures var o := RefundBan(db, id, at); o.Done? ==> CaseRules(o.value)
  {
    var o := RefundBan(db, id, at);
    if o.Done? {
      var s := db.cases[id].sub;
      NoCancellationBesideOpen(db, id, s);
      ClosedKeepsRules(db, o.value, id, s);
    }
  }

  /** While a ban case is open there is no cancellation to supersede. */
  lemma NoCancellationBesideOpen(db: Db, id: int, s: int)
    requires CaseRules(db) && id in db.cases && db.cases[id].sub == s && db.cases[id].Open() && s in db.subs
    requires db.cases[id].source == AccountBan
    ensures db.subs[s].cancelCase.None? && db.subs[s].cancelExpires.None?
  {
    assert SubRules(db, s);
    forall c | c in db.cases && db.cases[c].sub == s && c != id ensures !db.cases[c].Open() {
      assert Unrivalled(db.cases, c, id);
    }
  }

  lemma UndoRefundKeepsRules(db: Db, id: int, now: Instant)
    requires CaseRules(db) && id in db.cases && db.cases[id].source == AccountBan
    ensures var o := UndoRefund(db, id, now); o.Done? ==> CaseRules(o.value)
  {
    var o := UndoRefund(db, id, now);
    if o.Done? {
      var next := o.value;
      var s := db.cases[id].sub;
      assert RowRefs(db, s) && SubRules(db, s);
      RefsAfterCases(db, next, s);
      SubRulesUnfold(db, s);
      forall c | c in next.cases && next.cases[c].sub == s ensures CaseRule(next, c) {
        assert CaseRule(db, c);
        assert Unrivalled(db.cases, c, id);
        if c == id { assert BanLink(db, c); }
      }
      forall c, d | c in next.cases && d in next.cases && next.cases[c].sub == s && next.cases[d].sub == s
        ensures Unrivalled(next.cases, c, d)
      {
        assert Unrivalled(db.cases, c, d) && CaseRule(db, c) && CaseRule(db, d);
      }
      OneTouchedKeepsRules(db, next, s);
    }
  }

  lemma EditCaseKeepsRules(db: Db, id: int, refundCents: int)
    requires CaseRules(db)
    ensures var o := UpdateCase(db, id, refundCents); o.Done? ==> CaseRules(o.value)
  {
    var o := UpdateCase(db, id, refundCents);
    if o.Done? {
      var next := o.value;
      var s := db.cases[id].sub;
      assert CaseRefs(db, id);
      assert RowRefs(db, s) && SubRules(db, s);
      RefsAfterCases(db, next, s);
      SubRulesUnfold(db, s);
      forall c | c in next.cases && next.cases[c].sub == s ensures CaseRule(next, c) {
        assert CaseRule(db, c);
        if db.cases[c].source == AccountBan && db.cases[c].Open() { assert BanLink(db, c); }
      }
      forall c, d | c in next.cases && d in next.cases && next.cases[c].sub == s && next.cases[d].sub == s
        ensures Unrivalled(next.cases, c, d)
      {
        assert Unrivalled(db.cases, c, d);
      }
      OneTouchedKeepsRules(db, next, s);
    }
  }

  lemma ReassignKeepsRules(db: Db, id: int, account: int, seat: Option<int>, now: Instant)
    requires CaseRules(db)
    ensures var o := Reassign(db, id, account, seat, now); o.Done? ==> CaseRules(o.value)
  {
    var o := Reassign(db, id, account, seat, now);
    if o.Done? {
      var next := o.value;
      var s := db.cases[id].sub;
      assert RowRefs(db, s) && SubRules(db, s);
      RefsAfterCases(db, next, s);
      SubRulesUnfold(db, s);
      forall c | c in next.cases && next.cases[c].sub == s ensures CaseRule(next, c) {
        assert CaseRule(db, c) && Unrivalled(db.cases, c, id);
      }
      forall c, d | c in next.cases && d in next.cases && next.cases[c].sub == s && next.cases[d].sub == s
        ensures Unrivalled(next.cases, c, d)
      {
        assert Unrivalled(db.cases, c, d);
      }
      NoCancellationBesideOpen(db, id, s);
      OneTouchedKeepsRules(db, next, s);
    }
  }

  // ---- opening cases

  /** Opening a case of `s` while it has no other open one. */
  lemma InsertedKeepsRules(db: Db, next: Db, k: Case, s: int)
    requires CaseRules(db) && !HasOpenCase(db.cases, s) && s in db.subs && db.subs[s].Active() && s in next.subs
    requires k.sub == s && k.Open() && (k.status == Review <==> k.bill.None?)
    requires k.bill.Some? ==> k.bill.value in db.bills && db.bills[k.bill.value].sub == s
    requires next == InsertCase(db, k).(subs := db.subs[s := next.subs[s]])
    requires next.subs[s].seat == db.subs[s].seat && next.subs[s].Active()
    requires next.subs[s].frozenUntil == db.subs[s].frozenUntil
    requires next.subs[s].cancelExpires.Some? <==> next.subs[s].cancelCase.Some?
    requires next.subs[s].cancelCase == if k.source == CustomerCancellation then Some(db.nextCase) else None
    requires k.source == AccountBan ==> BanLink(next, db.nextCase)
    ensures CaseRules(next)
  {
    forall c | c in db.cases ensures c < db.nextCase { assert CaseRefs(db, c); }
    assert RowRefs(db, s) && SubRules(db, s);
    RefsAfterCases(db, next, s);
    SubRulesUnfold(db, s);
    forall c | c in next.cases && next.cases[c].sub == s ensures CaseRule(next, c) {
      if c != db.nextCase { assert CaseRule(db, c); }
    }
    forall c, d | c in next.cases && d in next.cases && next.cases[c].sub == s && next.cases[d].sub == s
      ensures Unrivalled(next.cases, c, d)
    {
      if c != db.nextCase && d != db.nextCase { assert Unrivalled(db.cases, c, d); }
    }
    OneTouchedKeepsRules(db, next, s);
  }

  lemma RequestKeepsRules(db: Db, id: int, requestedAt: Instant, expiresAt: Instant, warrantyDays: int)
    requires CaseRules(db)
    ensures var o := RequestCancellation(db, id, requestedAt, expiresAt, warrantyDays); o.Done? ==> CaseRules(o.value)
  {
    var o := RequestCancellation(db, id, requestedAt, expiresAt, warrantyDays);
    if o.Done? {
      var account := SeatAccount(db, db.subs[id]).value;
      InsertedKeepsRules(db, o.value,
        NewCase(db, account, id, requestedAt.day, warrantyDays, CustomerCancellation), id);
    }
  }

  /** Superseding a pending cancellation. */
  lemma SupersedeKeepsRules(db: Db, id: int)
    requires CaseRules(db) && id in db.subs && db.subs[id].cancelCase.Some?
    ensures var next := Superseded(db, id);
      CaseRules(next) && !HasOpenCase(next.cases, id)
  {
    var next := Superseded(db, id);
    assert RowRefs(db, id) && SubRules(db, id);
    RefsAfterCases(db, next, id);
    SubRulesUnfold(db, id);
    var gone := db.subs[id].cancelCase.value;
    forall c | c in next.cases && next.cases[c].sub == id ensures CaseRule(next, c) && !next.cases[c].Open() {
      assert CaseRule(db, c) && Unrivalled(db.cases, c, gone);
    }
    forall c, d | c in next.cases && d in next.cases && next.cases[c].sub == id && next.cases[d].sub == id
      ensures Unrivalled(next.cases, c, d)
    {
      assert Unrivalled(db.cases, c, d);
    }
    OneTouchedKeepsRules(db, next, id);
  }

  /** After superseding, a case found on record for this ban is the only one that can still be open. */
  lemma BanOneKeepsRules(db: Db, account: int, id: int, day: int, warrantyDays: int)
    requires CaseRules(db) && Affected(db, account, id)
    requires account in db.accounts && db.accounts[account].bannedOn == Some(day)
    ensures var o := BanOne(db, account, id, day, warrantyDays); o.Done? ==> CaseRules(o.value)
  {
    var o := BanOne(db, account, id, day, warrantyDays);
    if o.Done? {
      var mid := Superseded(db, id);
      if db.subs[id].cancelCase.Some? { SupersedeKeepsRules(db, id); }
      assert SubRules(mid, id);
      if !CaseRecorded(mid.cases, account, id, day) {
        forall c | c in mid.cases && mid.cases[c].sub == id ensures !mid.cases[c].Open() {
          assert CaseRule(mid, c);
        }
        var k := NewCase(mid, account, id, day, warrantyDays, AccountBan);
        assert BanLink(o.value, mid.nextCase);
        assert o.value == InsertCase(mid, k).(subs := mid.subs[id := o.value.subs[id]]);
        InsertedKeepsRules(mid, o.value, k, id);
      }
    }
  }

  lemma BanFromKeepsRules(db: Db, account: int, day: int, warrantyDays: int, id: int)
    requires CaseRules(db) && account in db.accounts && db.accounts[account].bannedOn == Some(day)
    ensures var o := BanFrom(db, account, day, warrantyDays, id); o.Done? ==> CaseRules(o.value)
    decreases db.nextSub - id
  {
    if id < db.nextSub {
      if !Affected(db, account, id) {
        BanFromKeepsRules(db, account, day, warrantyDays, id + 1);
      } else {
        BanOneKeepsRules(db, account, id, day, warrantyDays);
        var one := BanOne(db, account, id, day, warrantyDays);
        if one.Done? { BanFromKeepsRules(one.value, account, day, warrantyDays, id + 1); }
      }
    }
  }

  lemma BanKeepsRules(db: Db, account: int, day: int, warrantyDays: int)
    requires CaseRules(db)
    ensures var o := BanAccount(db, account, day, warrantyDays); o.Done? ==> CaseRules(o.value)
  {
    if account in db.accounts {
      var bannedOn := if db.accounts[account].bannedOn.Some? then db.accounts[account].bannedOn.value else day;
      var marked := db.(accounts := db.accounts[account := db.accounts[account].(bannedOn := Some(bannedOn))]);
      RefsAfterAccounts(db, marked);
      UntouchedKeepsRules(db, marked);
      BanFromKeepsRules(marked, account, bannedOn, warrantyDays, 0);
    }
  }

  /** An expiry sweep removes, of one subscription's cases, exactly the cancellation that ran out. */
  lemma ExpiredCaseOwner(db: Db, c: int, now: Instant)
    requires CaseRules(db) && c in db.cases
    ensures ExpiredCase(db, c, now) <==>
            var s := db.cases[c].sub; s in db.subs && Expired(db.subs[s], now) && db.subs[s].cancelCase == Some(c)
  {
    assert CaseRefs(db, c);
    assert SubRules(db, db.cases[c].sub);
    if ExpiredCase(db, c, now) {
      var s :| s in db.subs && Expired(db.subs[s], now) && db.subs[s].cancelCase == Some(c);
      assert SubRules(db, s);
    }
  }

  lemma ExpiryKeepsRules(db: Db, now: Instant)
    requires CaseRules(db)
    ensures CaseRules(RestoreExpired(db, now))
  {
    var next := RestoreExpired(db, now);
    forall s | s in next.subs ensures RowRefs(next, s) { assert RowRefs(db, s); }
    forall c | c in next.cases ensures CaseRefs(next, c) { assert CaseRefs(db, c); }
    forall s | s in next.subs ensures SubRules(next, s) { ExpirySparesOthers(db, now, s); }
  }

  lemma ExpirySparesOthers(db: Db, now: Instant, s: int)
    requires CaseRules(db) && s in db.subs
    ensures SubRules(RestoreExpired(db, now), s)
  {
    var next := RestoreExpired(db, now);
    assert SubRules(db, s) && RowRefs(db, s);
    SubRulesUnfold(db, s);
    forall c | c in db.cases && db.cases[c].sub == s
      ensures c in next.cases <==> !(Expired(db.subs[s], now) && db.subs[s].cancelCase == Some(c))
    {
      ExpiredCaseOwner(db, c, now);
    }
    if !Expired(db.subs[s], now) {
      RulesCarryOver(db, next, s);
    } else {
      forall c | c in next.cases && next.cases[c].sub == s ensures CaseRule(next, c) {
        assert CaseRule(db, c);
        if db.cases[c].source == AccountBan && (db.cases[c].Open() || db.cases[c].status == Refunded) {
          assert BanLink(db, c);
        }
      }
      forall c, d | c in next.cases && d in next.cases && next.cases[c].sub == s && next.cases[d].sub == s
        ensures Unrivalled(next.cases, c, d)
      {
        assert Unrivalled(db.cases, c, d);
      }
    }
  }

  // ---- every transaction, every run

  predicate OnRows(op: Op) {
    op.Insert? || op.Move? || op.Archive? || op.EditFreeze? || op.Delete? || op.Defer? || op.Restore? || op.Remove?
  }

  predicate OnCases(op: Op) {
    op.Ban? || op.RequestCancel? || op.ExpireCancellations? || op.EditCase? || op.MarkRefunded? || op.MoveAffected?
  }

  lemma RowStepsKeepRules(db: Db, op: Op, now: Instant)
    requires CaseRules(db) && OnRows(op)
    ensures CaseRules(After(db, op, now))
  {
    match op
    case Insert(seat) => InsertKeepsRules(db, seat, now);
    case Move(id, seat) => MoveKeepsRules(db, id, seat, now);
    case Archive(id, freezeUntil, expiry) => ArchiveKeepsRules(db, id, now, freezeUntil, expiry);
    case EditFreeze(id, until) => RowOpsKeepRules(db, id, until, now, true);
    case Delete(id) => RowOpsKeepRules(db, id, now, now, true);
    case Defer(id, current) => RowOpsKeepRules(db, id, now, now, current);
    case Restore(id) => RowOpsKeepRules(db, id, now, now, true);
    case Remove(items, freezeDays) => RemoveKeepsRules(db, items, 0, now, now.AddDays(freezeDays));
  }

  lemma CaseStepsKeepRules(db: Db, op: Op, now: Instant)
    requires CaseRules(db) && OnCases(op)
    ensures CaseRules(After(db, op, now))
  {
    match op
    case Ban(account, day, warrantyDays) => BanKeepsRules(db, account, day, warrantyDays);
    case RequestCancel(id, expiresAt, warrantyDays) => RequestKeepsRules(db, id, now, expiresAt, warrantyDays);
    case ExpireCancellations => ExpiryKeepsRules(db, now);
    case EditCase(id, refundCents) => EditCaseKeepsRules(db, id, refundCents);
    case MarkRefunded(id, refunded, freezeAt) => RefundKeepsRules(db, id, refunded, now, freezeAt);
    case MoveAffected(id, account, seat) => ReassignKeepsRules(db, id, account, seat, now);
  }

  lemma TableStepsKeepRules(db: Db, op: Op, now: Instant)
    requires CaseRules(db) && !OnRows(op) && !OnCases(op)
    ensures CaseRules(After(db, op, now))
  {
    match op
    case NewAccount(account, paused) => AccountOpsKeepRules(db, account, {}, paused);
    case Pause(owned, paused) => AccountOpsKeepRules(db, 0, owned, paused);
    case NewSeat(account) => SeatOpsKeepRules(db, account, 0);
    case DropSeat(seat) => SeatOpsKeepRules(db, 0, seat);
    case Pay(id, due, amountCents) => BillRowsKeepRules(db, id, due, amountCents);
    case EditBill(bill, amountCents) => BillEditKeepsRules(db, bill, amountCents);
    case DropBill(bill) => BillRowsKeepRules(db, bill, 0, 0);
  }

  lemma StepKeepsCaseRules(db: Db, op: Op, now: Instant)
    requires CaseRules(db)
    ensures CaseRules(After(db, op, now))
  {
    if OnRows(op) { RowStepsKeepRules(db, op, now); }
    else if OnCases(op) { CaseStepsKeepRules(db, op, now); }
    else { TableStepsKeepRules(db, op, now); }
  }

  lemma RefundKeepsRules(db: Db, id: int, refunded: bool, at: Instant, freezeUntil: Instant)
    requires CaseRules(db)
    ensures var o := SetRefunded(db, id, refunded, at, freezeUntil); o.Done? ==> CaseRules(o.value)
  {
    if id in db.cases {
      if db.cases[id].source == CustomerCancellation { CompleteCancellationKeepsRules(db, id, at, freezeUntil); }
      else { RefundBanKeepsRules(db, id, at); UndoRefundKeepsRules(db, id, at); }
    }
  }

  /** The four whole-run guarantees about after-sales cases. */
  ghost predicate CasesInOrder(db: Db) {
    && (forall c, d :: c in db.cases && d in db.cases && db.cases[c].sub == db.cases[d].sub ==>
          (db.cases[c].Open() && db.cases[d].Open() ==> c == d)
          && (db.cases[c].status == Refunded && db.cases[d].status == Refunded ==> c == d))
    && (forall s, c :: s in db.subs ==> (db.subs[s].cancelCase == Some(c) <==> OpenCancellation(db.cases, c, s)))
    && (forall c :: c in db.cases ==>
          && db.cases[c].sub in db.subs
          && (db.cases[c].Open() ==> db.subs[db.cases[c].sub].Active())
          && (db.cases[c].status == Refunded ==> db.subs[db.cases[c].sub].archivedAt.Some?))
  }

  lemma RulesMeanInOrder(db: Db)
    requires CaseRules(db)
    ensures CasesInOrder(db)
  {
    forall c | c in db.cases
      ensures db.cases[c].sub in db.subs && CaseRule(db, c)
    {
      assert CaseRefs(db, c);
      SubRulesUnfold(db, db.cases[c].sub);
    }
    forall c, d | c in db.cases && d in db.cases && db.cases[c].sub == db.cases[d].sub
      ensures Unrivalled(db.cases, c, d)
    {
      assert SubRules(db, db.cases[c].sub);
    }
    forall s, c | s in db.subs
      ensures db.subs[s].cancelCase == Some(c) <==> OpenCancellation(db.cases, c, s)
    {
      assert SubRules(db, s);
    }
  }

  lemma {:induction false} RunKeepsCaseRules(db: Db, events: seq<Event>)
    requires CaseRules(db)
    ensures CaseRules(Run(db, events))
    decreases |events|
  {
    if events != [] {
      StepKeepsCaseRules(db, events[0].op, events[0].at);
      RunKeepsCaseRules(After(db, events[0].op, events[0].at), events[1..]);
    }
  }

  /** Starting from empty tables, no order of transactions, at whatever clock readings, can break them. */
  lemma CasesStayInOrder(events: seq<Event>)
    ensures CasesInOrder(Run(EmptyDb(), events))
  {
    RunKeepsCaseRules(EmptyDb(), events);
    RulesMeanInOrder(Run(EmptyDb(), events));
  }
}
