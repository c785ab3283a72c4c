/** Refunds: the proration formula, and refunds of one bill never exceeding what was paid for it. */
module LifecycleMoney {
  import opened Arithmetic
  import opened Instants
  import opened Lifecycles
  import opened LifecycleLaws

  // ---- proration

  /** The split formula is the exact product rounded half up, lies between nothing and everything, and only
      ever multiplies a remainder smaller than the period. */
  lemma ProrationIsHalfUp(paidCents: int, remainingDays: int, periodDays: int)
    requires 0 < paidCents && 0 < remainingDays < periodDays
    ensures ProratedRefund(paidCents, remainingDays, periodDays)
         == (paidCents * remainingDays + periodDays / 2) / periodDays
    ensures 0 <= ProratedRefund(paidCents, remainingDays, periodDays) <= paidCents
    ensures 0 <= (paidCents / periodDays) * remainingDays <= paidCents
    ensures 0 <= (paidCents % periodDays) * remainingDays + periodDays / 2 < periodDays * periodDays
  {
    var q, m := paidCents / periodDays, paidCents % periodDays;
    SplitIsProduct(paidCents, q, m, remainingDays, periodDays);
    SplitWithin(paidCents, q, m, remainingDays, periodDays);
  }

  lemma SplitIsProduct(paid: int, q: int, m: int, remaining: int, period: int)
    requires 0 < period && paid == q * period + m
    ensures q * remaining + (m * remaining + period / 2) / period == (paid * remaining + period / 2) / period
  {
    var rest := m * remaining + period / 2;
    WholePartsDivideOut(q * remaining, rest, period);
    Distribute(paid, q, m, remaining, period);
  }

  lemma Distribute(paid: int, q: int, m: int, remaining: int, period: int)
    requires paid == q * period + m
    ensures paid * remaining == q * remaining * period + m * remaining
  {
    assert (q * period) * remaining == (q * remaining) * period;
  }

  lemma SplitWithin(paid: int, q: int, m: int, remaining: int, period: int)
    requires 0 <= q && 0 <= m < period && 0 < remaining < period && paid == q * period + m
    ensures 0 <= q * remaining <= paid
    ensures 0 <= m * remaining + period / 2 < period * period
    ensures 0 <= q * remaining + (m * remaining + period / 2) / period <= paid
  {
    MulMonotonic(0, remaining, q);
    MulMonotonic(remaining, period, q);
    RemainderRounds(m, remaining, period);
  }

  lemma RemainderRounds(m: int, remaining: int, period: int)
    requires 0 <= m < period && 0 < remaining < period
    ensures 0 <= (m * remaining + period / 2) / period <= m
    ensures 0 <= m * remaining + period / 2 < period * period
  {
    var rest := m * remaining + period / 2;
    MulMonotonic(0, remaining, m);
    MulMonotonic(remaining, period, m);
    MulMonotonic(m + 1, period, period);
    assert (m + 1) * period == m * period + period;
    QuotientAtMost(rest, m, period);
  }

  lemma ProrationBounds(paidCents: int, remainingDays: int, periodDays: int)
    requires 0 <= paidCents
    ensures 0 <= ProratedRefund(paidCents, remainingDays, periodDays) <= paidCents
  {
    if 0 < paidCents && 0 < remainingDays < periodDays { ProrationIsHalfUp(paidCents, remainingDays, periodDays); }
  }

  lemma ProrationMonotone(paidCents: int, fewer: int, more: int, periodDays: int)
    requires 0 <= paidCents && fewer <= more
    ensures ProratedRefund(paidCents, fewer, periodDays) <= ProratedRefund(paidCents, more, periodDays)
  {
    ProrationBounds(paidCents, fewer, periodDays);
    ProrationBounds(paidCents, more, periodDays);
    if 0 < paidCents && 0 < fewer && more < periodDays {
      ProrationIsHalfUp(paidCents, fewer, periodDays);
      ProrationIsHalfUp(paidCents, more, periodDays);
      MulMonotonic(fewer, more, paidCents);
      QuotientMonotonic(paidCents * fewer + periodDays / 2, paidCents * more + periodDays / 2, periodDays);
    }
  }

  /** The refund is everything up to the due date, nothing from the end of the warranty on, and never grows
      in between. */
  lemma RefundShrinksOverTime(paidCents: int, due: int, day: int, later: int, warrantyDays: int)
    requires 0 <= paidCents && 0 < warrantyDays && day <= later
    ensures RefundOn(paidCents, due, later, warrantyDays) <= RefundOn(paidCents, due, day, warrantyDays)
    ensures day <= due ==> RefundOn(paidCents, due, day, warrantyDays) == paidCents
    ensures due + warrantyDays <= day ==> RefundOn(paidCents, due, day, warrantyDays) == 0
  {
    ProrationMonotone(paidCents,
      RemainingDays(due, later, warrantyDays), RemainingDays(due, day, warrantyDays), warrantyDays);
  }

  // ---- sums of refunds

  lemma {:induction false} SameShares(before: map<int, Case>, after: map<int, Case>, bill: int, except: int, n: int)
    requires forall c :: 0 <= c < n && c != except ==> RefundShare(before, bill, c) == RefundShare(after, bill, c)
    ensures RefundTotal(before, bill, except, n) == RefundTotal(after, bill, except, n)
    decreases n
  {
    if n > 0 { SameShares(before, after, bill, except, n - 1); }
  }

  /** Leaving one case out leaves out exactly its share. */
  lemma {:induction false} LeaveOneOut(cases: map<int, Case>, bill: int, c: int, n: int)
    requires 0 <= c
    ensures RefundTotal(cases, bill, -1, n)
      == RefundTotal(cases, bill, c, n) + if c < n then RefundShare(cases, bill, c) else 0
    decreases n
  {
    if n > 0 { LeaveOneOut(cases, bill, c, n - 1); }
  }

  lemma {:induction false} NothingBeyond(cases: map<int, Case>, bill: int, n: int, m: int)
    requires 0 <= n <= m && forall c :: n <= c < m ==> RefundShare(cases, bill, c) == 0
    ensures RefundTotal(cases, bill, -1, m) == RefundTotal(cases, bill, -1, n)
    decreases m
  {
    if n < m { NothingBeyond(cases, bill, n, m - 1); }
  }

  // ---- the invariant

  ghost predicate PaidOnce(db: Db, c: int)
    requires c in db.cases
  {
    var k := db.cases[c];
    && 0 <= k.refundCents
    && (k.bill.Some? ==> k.bill.value in db.bills && k.paidCents == db.bills[k.bill.value].amountCents)
  }

  function GivenBack(db: Db, bill: int): int {
    RefundTotal(db.cases, bill, -1, db.nextCase)
  }

  ghost predicate Covered(db: Db, bill: int)
    requires bill in db.bills
  {
    0 <= db.bills[bill].amountCents && GivenBack(db, bill) <= db.bills[bill].amountCents
  }

  /** A case shows the amount of the bill it refunds, and no bill gives back more than it took in. */
  ghost predicate Money(db: Db) {
    (forall c :: c in db.cases ==> PaidOnce(db, c)) && (forall b :: b in db.bills ==> Covered(db, b))
  }

  /** Bills stay, refunded cases stay as they are, cases without a completed refund come, change and go. */
  ghost predicate Quiet(db: Db, next: Db) {
    && next.bills == db.bills && 0 <= db.nextCase <= next.nextCase
    && (forall c :: c in db.cases || c in next.cases ==> 0 <= c < next.nextCase)
    && (forall c :: c in db.cases ==> c < db.nextCase)
    && (forall c :: c in next.cases ==> PaidOnce(next, c))
    && (forall b, c :: RefundShare(next.cases, b, c) == RefundShare(db.cases, b, c))
  }

  lemma QuietKeepsMoney(db: Db, next: Db)
    requires Money(db) && Quiet(db, next)
    ensures Money(next)
    ensures forall b :: GivenBack(next, b) == GivenBack(db, b)
  {
    forall b ensures GivenBack(next, b) == GivenBack(db, b) {
      SameShares(db.cases, next.cases, b, -1, db.nextCase);
      NothingBeyond(next.cases, b, db.nextCase, next.nextCase);
    }
    forall b | b in next.bills ensures Covered(next, b) { assert Covered(db, b); }
  }

  // ---- cases opened, edited and dropped

  lemma IdsBelow(db: Db)
    requires Refs(db)
    ensures forall c :: c in db.cases ==> 0 <= c < db.nextCase
    ensures forall c :: c in db.cases && db.cases[c].bill.Some? ==> db.cases[c].bill.value in db.bills
  {
    forall c | c in db.cases
      ensures 0 <= c < db.nextCase && (db.cases[c].bill.Some? ==> db.cases[c].bill.value in db.bills)
    {
      assert CaseRefs(db, c);
    }
  }

  lemma NewCasePaidOnce(db: Db, account: int, sub: int, day: int, warrantyDays: int, source: Source)
    requires Money(db)
    ensures var k := NewCase(db, account, sub, day, warrantyDays, source);
      && k.Open() && 0 <= k.refundCents
      && (k.bill.Some? ==>
        k.bill.value in db.bills && k.paidCents == db.bills[k.bill.value].amountCents && k.refundCents <= k.paidCents)
  {
    var bill := LatestBill(db.bills, sub, day, db.nextBill);
    if bill.Some? {
      assert Covered(db, bill.value);
      ProrationBounds(db.bills[bill.value].amountCents,
        RemainingDays(db.bills[bill.value].due, day, warrantyDays), warrantyDays);
    }
  }

  lemma RequestKeepsMoney(db: Db, id: int, requestedAt: Instant, expiresAt: Instant, warrantyDays: int)
    requires Refs(db) && Money(db)
    ensures var o := RequestCancellation(db, id, requestedAt, expiresAt, warrantyDays); o.Done? ==> Money(o.value)
  {
    var o := RequestCancellation(db, id, requestedAt, expiresAt, warrantyDays);
    if o.Done? {
      IdsBelow(db);
      var k := NewCase(db, SeatAccount(db, db.subs[id]).value, id, requestedAt.day, warrantyDays, CustomerCancellation);
      NewCasePaidOnce(db, SeatAccount(db, db.subs[id]).value, id, requestedAt.day, warrantyDays, CustomerCancellation);
      InsertedIsQuiet(db, o.value, k);
      QuietKeepsMoney(db, o.value);
    }
  }

  lemma InsertedIsQuiet(db: Db, next: Db, k: Case)
    requires Refs(db) && Money(db) && k.Open() && 0 <= k.refundCents
    requires k.bill.Some? ==> k.bill.value in db.bills && k.paidCents == db.bills[k.bill.value].amountCents
    requires next == InsertCase(db, k).(subs := next.subs)
    ensures Quiet(db, next)
  {
    IdsBelow(db);
    forall c | c in next.cases ensures PaidOnce(next, c) {
      if c != db.nextCase { assert PaidOnce(db, c); }
    }
  }

  lemma SupersededIsQuiet(db: Db, id: int)
    requires Refs(db) && Money(db) && id in db.subs
    ensures Quiet(db, Superseded(db, id))
  {
    IdsBelow(db);
    var next := Superseded(db, id);
    forall c | c in next.cases ensures PaidOnce(next, c) { assert PaidOnce(db, c); }
  }

  lemma BanOneKeepsMoney(db: Db, account: int, id: int, day: int, warrantyDays: int)
    requires CaseRules(db) && Money(db) && id in db.subs
    ensures var o := BanOne(db, account, id, day, warrantyDays); o.Done? ==> Money(o.value)
  {
    var o := BanOne(db, account, id, day, warrantyDays);
    if o.Done? {
      var mid := Superseded(db, id);
      SupersededIsQuiet(db, id);
      QuietKeepsMoney(db, mid);
      if db.subs[id].cancelCase.Some? { SupersedeKeepsRules(db, id); }
      if o.value != mid {
        NewCasePaidOnce(mid, account, id, day, warrantyDays, AccountBan);
        InsertedIsQuiet(mid, o.value, NewCase(mid, account, id, day, warrantyDays, AccountBan));
        QuietKeepsMoney(mid, o.value);
      }
    }
  }

  lemma BanFromKeepsMoney(db: Db, account: int, day: int, warrantyDays: int, id: int)
    requires CaseRules(db) && Money(db) && account in db.accounts && db.accounts[account].bannedOn == Some(day)
    ensures var o := BanFrom(db, account, day, warrantyDays, id); o.Done? ==> Money(o.value)
    decreases db.nextSub - id
  {
    if id < db.nextSub {
      if !Affected(db, account, id) {
        BanFromKeepsMoney(db, account, day, warrantyDays, id + 1);
      } else {
        var one := BanOne(db, account, id, day, warrantyDays);
        if one.Done? {
          BanOneKeepsRules(db, account, id, day, warrantyDays);
          BanOneKeepsMoney(db, account, id, day, warrantyDays);
          BanFromKeepsMoney(one.value, account, day, warrantyDays, id + 1);
        }
      }
    }
  }

  lemma BanKeepsMoney(db: Db, account: int, day: int, warrantyDays: int)
    requires CaseRules(db) && Money(db)
    ensures var o := BanAccount(db, account, day, warrantyDays); o.Done? ==> Money(o.value)
  {
    if account in db.accounts {
      var bannedOn := if db.accounts[account].bannedOn.Some? then db.accounts[account].bannedOn.value else day;
      var marked := db.(accounts := db.accounts[account := db.accounts[account].(bannedOn := Some(bannedOn))]);
      RefsAfterAccounts(db, marked);
      UntouchedKeepsRules(db, marked);
      SameLedgerKeepsMoney(db, marked);
      BanFromKeepsMoney(marked, account, bannedOn, warrantyDays, 0);
    }
  }

  lemma SameLedgerKeepsMoney(db: Db, next: Db)
    requires Refs(db) && Money(db) && next.bills == db.bills && next.cases == db.cases && next.nextCase == db.nextCase
    ensures Money(next)
  {
    forall c | c in next.cases ensures PaidOnce(next, c) { assert PaidOnce(db, c); }
    forall b | b in next.bills ensures Covered(next, b) { assert Covered(db, b); }
  }

  lemma ExpiryKeepsMoney(db: Db, now: Instant)
    requires Refs(db) && Money(db)
    ensures Money(RestoreExpired(db, now))
  {
    var next := RestoreExpired(db, now);
    IdsBelow(db);
    forall c | c in next.cases ensures PaidOnce(next, c) { assert PaidOnce(db, c); }
    QuietKeepsMoney(db, next);
  }

  lemma CaseEditKeepsMoney(db: Db, id: int, refundCents: int)
    requires Refs(db) && Money(db)
    ensures var o := UpdateCase(db, id, refundCents); o.Done? ==> Money(o.value)
  {
    IdsBelow(db);
    var edited := UpdateCase(db, id, refundCents);
    if edited.Done? {
      forall c | c in edited.value.cases ensures PaidOnce(edited.value, c) { assert PaidOnce(db, c); }
      QuietKeepsMoney(db, edited.value);
    }
  }

  lemma ReassignKeepsMoney(db: Db, id: int, account: int, seat: Option<int>, now: Instant)
    requires Refs(db) && Money(db)
    ensures var o := Reassign(db, id, account, seat, now); o.Done? ==> Money(o.value)
  {
    IdsBelow(db);
    var moved := Reassign(db, id, account, seat, now);
    if moved.Done? {
      forall c | c in moved.value.cases ensures PaidOnce(moved.value, c) { assert PaidOnce(db, c); }
      QuietKeepsMoney(db, moved.value);
    }
  }

  // ---- completing and undoing refunds

  /** Case `id`, whose refund passed the check, is completed; nothing else about cases or bills changes. */
  lemma CompletionKeepsMoney(db: Db, next: Db, id: int)
    requires Refs(db) && Money(db) && id in db.cases && db.cases[id].Open() && RefundCheck(db, id, -1).None?
    requires next.bills == db.bills && next.nextCase == db.nextCase
    requires next.cases == db.cases[id := db.cases[id].(status := Refunded)]
    ensures Money(next)
  {
    IdsBelow(db);
    forall c | c in next.cases ensures PaidOnce(next, c) { assert PaidOnce(db, c); }
    forall b | b in next.bills ensures Covered(next, b) {
      assert Covered(db, b) && PaidOnce(db, id);
      LeaveOneOut(db.cases, b, id, db.nextCase);
      LeaveOneOut(next.cases, b, id, db.nextCase);
      SameShares(db.cases, next.cases, b, id, db.nextCase);
    }
  }

  /** The check lets a refund of a bill through exactly when completing it leaves the bill's receipts
      non-negative and no later payment of the customer would be stranded. */
  lemma RefundCheckIsExact(db: Db, id: int)
    requires Refs(db) && Money(db) && id in db.cases && db.cases[id].Open() && db.cases[id].bill.Some?
    ensures var c := db.cases[id];
      var b := c.bill.value;
      var completed := db.(cases := db.cases[id := c.(status := Refunded)]);
      RefundCheck(db, id, -1).None? <==>
        b in db.bills && GivenBack(completed, b) <= db.bills[b].amountCents && !HasFuturePaid(db, c.sub, c.eventDay)
  {
    IdsBelow(db);
    assert PaidOnce(db, id);
    var b := db.cases[id].bill.value;
    var after := db.cases[id := db.cases[id].(status := Refunded)];
    assert Covered(db, b);
    LeaveOneOut(db.cases, b, id, db.nextCase);
    LeaveOneOut(after, b, id, db.nextCase);
    SameShares(db.cases, after, b, id, db.nextCase);
  }

  /** A case without a bill has no such limit: any amount passes unless a later payment would be stranded. */
  lemma UnbilledRefundsAreUnbounded(db: Db, id: int, cents: int)
    requires id in db.cases && db.cases[id].bill.None? && 0 <= cents
    ensures RefundCheck(db, id, cents).None? <==> !HasFuturePaid(db, db.cases[id].sub, db.cases[id].eventDay)
  {
  }

  /** A customer takes a seat, cancels without ever having paid, and is refunded. */
  function UnpaidSetup(now: Instant): seq<Event> {
    [Event(NewAccount(1, false), now), Event(NewSeat(1), now), Event(Insert(Some(1)), now)]
  }

  function UnpaidRefund(cents: int, now: Instant): seq<Event> {
    [Event(RequestCancel(1, now.AddDays(1), 30), now), Event(EditCase(1, cents), now),
     Event(MarkRefunded(1, true, now), now)]
  }

  /** From empty tables, that customer can be refunded any amount although no bill was ever received. */
  lemma RefundWithoutReceipts(cents: int, now: Instant)
    requires 0 <= cents
    ensures var events := UnpaidSetup(now) + UnpaidRefund(cents, now);
      var db := Run(EmptyDb(), events);
      Timely(events, now) && db.bills == map[] && 1 in db.cases && db.cases[1].status == Refunded
        && db.cases[1].refundCents == cents
  {
    var setup, refund := UnpaidSetup(now), UnpaidRefund(cents, now);
    RunOfThree(EmptyDb(), setup, refund);
    var seated := Run(EmptyDb(), setup);
    RunOfThree(EmptyDb(), setup, []);
    assert setup + [] == setup;
    RunOfThree(seated, refund, []);
    assert refund + [] == refund;
    SeatedFromNothing(now);
    RefundFromNothing(seated, cents, now);
    TimelyAtOnce(setup + refund, now);
  }

  lemma RunOfThree(db: Db, events: seq<Event>, rest: seq<Event>)
    requires |events| == 3
    ensures Run(db, events + rest)
         == Run(After(After(After(db, events[0].op, events[0].at), events[1].op, events[1].at),
                      events[2].op, events[2].at), rest)
  {
    var all := events + rest;
    assert all[1..][0] == events[1] && all[1..][1..][0] == events[2] && all[1..][1..][1..] == rest;
    var db1 := After(db, events[0].op, events[0].at);
    var db2 := After(db1, events[1].op, events[1].at);
    assert Run(db2, all[1..][1..]) == Run(After(db2, events[2].op, events[2].at), rest);
    assert Run(db1, all[1..]) == Run(db2, all[1..][1..]);
  }

  lemma SeatedFromNothing(now: Instant)
    ensures var db1 := After(EmptyDb(), NewAccount(1, false), now);
      var db3 := After(After(db1, NewSeat(1), now), Insert(Some(1)), now);
      db3 == Db(map[1 := Account(None, false)], map[1 := 1],
                map[1 := Subscription(Some(1), None, None, None, None, None, false)], map[], map[], 2, 2, 1, 1, [])
  {
    var db1 := After(EmptyDb(), NewAccount(1, false), now);
    assert db1.accounts == map[1 := Account(None, false)];
    var db2 := After(db1, NewSeat(1), now);
    assert db2.seats == map[1 := 1];
  }

  lemma {:induction false} TimelyAtOnce(events: seq<Event>, now: Instant)
    requires forall e :: e in events ==> e.at == now
    ensures Timely(events, now)
    decreases |events|
  {
    if events != [] {
      assert events[0] in events;
      TimelyAtOnce(events[1..], now);
    }
  }

  lemma RefundFromNothing(db: Db, cents: int, now: Instant)
    requires 0 <= cents && db.bills == map[] && db.cases == map[] && db.nextCase == 1 && db.seats == map[1 := 1]
    requires db.subs == map[1 := Subscription(Some(1), None, None, None, None, None, false)] && db.nextBill == 1
    ensures var requested := After(db, RequestCancel(1, now.AddDays(1), 30), now);
      var edited := After(requested, EditCase(1, cents), now);
      var refunded := After(edited, MarkRefunded(1, true, now), now);
      refunded.bills == map[] && 1 in refunded.cases && refunded.cases[1].status == Refunded
        && refunded.cases[1].refundCents == cents
  {
    var requested := After(db, RequestCancel(1, now.AddDays(1), 30), now);
    RequestWithoutBill(db, now);
    EditedAndRefunded(requested, cents, now);
  }

  lemma RequestWithoutBill(db: Db, now: Instant)
    requires db.bills == map[] && db.cases == map[] && db.nextCase == 1 && db.seats == map[1 := 1] && db.nextBill == 1
    requires db.subs == map[1 := Subscription(Some(1), None, None, None, None, None, false)]
    ensures var requested := After(db, RequestCancel(1, now.AddDays(1), 30), now);
      && requested.cases == map[1 := Case(1, 1, None, now.day, 0, 0, CustomerCancellation, Review)]
      && requested.bills == map[]
      && 1 in requested.subs && requested.subs[1].Active() && requested.subs[1].cancelCase == Some(1)
  {
    assert LatestBill(db.bills, 1, now.day, db.nextBill).None?;
  }

  lemma EditedAndRefunded(db: Db, cents: int, now: Instant)
    requires 0 <= cents && db.bills == map[] && 1 in db.subs && db.subs[1].Active() && db.subs[1].cancelCase == Some(1)
    requires db.cases == map[1 := Case(1, 1, None, now.day, 0, 0, CustomerCancellation, Review)]
    ensures var edited := After(db, EditCase(1, cents), now);
      var refunded := After(edited, MarkRefunded(1, true, now), now);
      refunded.bills == map[] && 1 in refunded.cases && refunded.cases[1].status == Refunded
        && refunded.cases[1].refundCents == cents
  {
    var edited := After(db, EditCase(1, cents), now);
    assert edited == db.(cases := map[1 := db.cases[1].(refundCents := cents)]);
    assert RefundCheck(edited, 1, -1).None?;
    assert CompleteCancellation(edited, 1, now, now).Done?;
  }

  lemma UndoKeepsMoney(db: Db, id: int, now: Instant)
    requires Refs(db) && Money(db) && id in db.cases
    ensures var o := UndoRefund(db, id, now); o.Done? ==> Money(o.value)
  {
    var o := UndoRefund(db, id, now);
    if o.Done? {
      var next := o.value;
      IdsBelow(db);
      forall c | c in next.cases ensures PaidOnce(next, c) { assert PaidOnce(db, c); }
      forall b | b in next.bills ensures Covered(next, b) {
        assert Covered(db, b) && PaidOnce(db, id);
        LeaveOneOut(db.cases, b, id, db.nextCase);
        LeaveOneOut(next.cases, b, id, db.nextCase);
        SameShares(db.cases, next.cases, b, id, db.nextCase);
      }
    }
  }

  lemma RefundKeepsMoney(db: Db, id: int, refunded: bool, at: Instant, freezeUntil: Instant)
    requires CaseRules(db) && Money(db)
    ensures var o := SetRefunded(db, id, refunded, at, freezeUntil); o.Done? ==> Money(o.value)
  {
    var o := SetRefunded(db, id, refunded, at, freezeUntil);
    if o.Done? {
      if db.cases[id].source == CustomerCancellation {
        CompletedCancellation(db, id, at, freezeUntil);
        CompletionKeepsMoney(db, o.value, id);
      } else if refunded {
        NoCancellationBesideOpen(db, id, db.cases[id].sub);
        CompletionKeepsMoney(db, o.value, id);
      } else {
        UndoKeepsMoney(db, id, at);
      }
    }
  }

  // ---- departures and bills

  lemma RemoveKeepsLedger(db: Db, items: seq<Removal>, k: nat, now: Instant, freezeUntil: Instant)
    requires CaseRules(db) && Money(db) && k <= |items|
    ensures var o := RemoveFrom(db, items, k, now, freezeUntil); o.Done? ==> Money(o.value)
    decreases |items| - k
  {
    var o := RemoveFrom(db, items, k, now, freezeUntil);
    if o.Done? && k < |items| {
      var gone := Depart(db, items[k].sub, now, None, freezeUntil).value;
      DepartKeepsRules(db, items[k].sub, now, freezeUntil);
      SameLedgerKeepsMoney(db, gone);
      RemoveKeepsLedger(gone, items, k + 1, now, freezeUntil);
    }
  }

  lemma ArchiveKeepsMoney(db: Db, id: int, at: Instant, freezeUntil: Option<Instant>, expiry: Option<bool>)
    requires CaseRules(db) && Money(db)
    ensures var o := ArchiveSubscription(db, id, at, freezeUntil, expiry); o.Done? ==> Money(o.value)
  {
    var o := ArchiveSubscription(db, id, at, freezeUntil, expiry);
    if o.Done? {
      assert SubRules(db, id);
      SameLedgerKeepsMoney(db, o.value);
    }
  }

  lemma UnlinkedTotal(db: Db, bill: int)
    requires !BillLinked(db.cases, bill)
    ensures GivenBack(db, bill) == 0
  {
    NothingBeyond(db.cases, bill, 0, if db.nextCase < 0 then 0 else db.nextCase);
  }

  lemma BillOpsKeepMoney(db: Db, id: int, due: int, amountCents: int)
    requires Refs(db) && Money(db)
    ensures var o := AddBill(db, id, due, amountCents); o.Done? ==> Money(o.value)
    ensures var o := UpdateBill(db, id, amountCents); o.Done? ==> Money(o.value)
    ensures var o := DeleteBill(db, id); o.Done? ==> Money(o.value)
  {
    var added, edited, dropped :=
      AddBill(db, id, due, amountCents), UpdateBill(db, id, amountCents), DeleteBill(db, id);
    IdsBelow(db);
    if added.Done? && added.value != db { BillChangeKeepsMoney(db, added.value, db.nextBill); }
    if edited.Done? { BillChangeKeepsMoney(db, edited.value, id); }
    if dropped.Done? { BillChangeKeepsMoney(db, dropped.value, id); }
  }

  /** A bill no case refers to is added, corrected or withdrawn. */
  lemma BillChangeKeepsMoney(db: Db, next: Db, bill: int)
    requires Money(db) && !BillLinked(db.cases, bill) && next.cases == db.cases && next.nextCase == db.nextCase
    requires forall b :: b != bill ==> (b in db.bills <==> b in next.bills)
    requires forall b :: b != bill && b in db.bills ==> next.bills[b] == db.bills[b]
    requires bill in next.bills ==> 0 <= next.bills[bill].amountCents
    ensures Money(next)
  {
    forall c | c in next.cases ensures PaidOnce(next, c) {
      assert PaidOnce(db, c);
      assert db.cases[c].bill.Some? ==> BillLinked(db.cases, db.cases[c].bill.value);
    }
    forall b | b in next.bills ensures Covered(next, b) {
      if b != bill { assert Covered(db, b); } else { UnlinkedTotal(db, b); }
    }
  }

  // ---- every transaction, every run

  predicate ChangesBills(op: Op) {
    op.Pay? || op.EditBill? || op.DropBill?
  }

  lemma CaseOpsKeepMoney(db: Db, op: Op, now: Instant)
    requires CaseRules(db) && Money(db) && OnCases(op)
    ensures Money(After(db, op, now))
  {
    match op
    case Ban(account, day, warrantyDays) => BanKeepsMoney(db, account, day, warrantyDays);
    case RequestCancel(id, expiresAt, warrantyDays) => RequestKeepsMoney(db, id, now, expiresAt, warrantyDays);
    case ExpireCancellations => ExpiryKeepsMoney(db, now);
    case EditCase(id, refundCents) => CaseEditKeepsMoney(db, id, refundCents);
    case MarkRefunded(id, refunded, freezeAt) => RefundKeepsMoney(db, id, refunded, now, freezeAt);
    case MoveAffected(id, account, seat) => ReassignKeepsMoney(db, id, account, seat, now);
  }

  lemma BillStepsKeepMoney(db: Db, op: Op, now: Instant)
    requires CaseRules(db) && Money(db) && ChangesBills(op)
    ensures Money(After(db, op, now))
  {
    match op
    case Pay(id, due, amountCents) => BillOpsKeepMoney(db, id, due, amountCents);
    case EditBill(bill, amountCents) => BillOpsKeepMoney(db, bill, 0, amountCents);
    case DropBill(bill) => BillOpsKeepMoney(db, bill, 0, 0);
  }

  lemma OthersKeepLedger(db: Db, op: Op, now: Instant)
    requires !OnCases(op) && !ChangesBills(op) && !op.Archive? && !op.Remove?
    ensures var next := After(db, op, now);
      next.bills == db.bills && next.cases == db.cases && next.nextCase == db.nextCase
  {
  }

  lemma StepKeepsMoney(db: Db, op: Op, now: Instant)
    requires CaseRules(db) && Money(db)
    ensures Money(After(db, op, now))
  {
    if OnCases(op) {
      CaseOpsKeepMoney(db, op, now);
    } else if ChangesBills(op) {
      BillStepsKeepMoney(db, op, now);
    } else if op.Archive? {
      ArchiveKeepsMoney(db, op.id, now, op.freezeUntil, op.expiry);
    } else if op.Remove? {
      RemoveKeepsLedger(db, op.items, 0, now, now.AddDays(op.freezeDays));
    } else {
      OthersKeepLedger(db, op, now);
      SameLedgerKeepsMoney(db, After(db, op, now));
    }
  }

  lemma {:induction false} RunKeepsMoney(db: Db, events: seq<Event>)
    requires CaseRules(db) && Money(db)
    ensures CaseRules(Run(db, events)) && Money(Run(db, events))
    decreases |events|
  {
    if events != [] {
      StepKeepsMoney(db, events[0].op, events[0].at);
      StepKeepsCaseRules(db, events[0].op, events[0].at);
      RunKeepsMoney(After(db, events[0].op, events[0].at), events[1..]);
    }
  }

  /** Refund conservation: every linked bill is still the one the case was computed from, and the refunds
      completed on it never exceed what it brought in. */
  lemma ReceiptsStayCovered(events: seq<Event>)
    ensures var db := Run(EmptyDb(), events);
      && (forall c :: c in db.cases && db.cases[c].bill.Some? ==>
            var b := db.cases[c].bill.value;
            b in db.bills && db.bills[b].sub == db.cases[c].sub && db.cases[c].paidCents == db.bills[b].amountCents)
      && (forall b :: b in db.bills ==> 0 <= db.bills[b].amountCents - GivenBack(db, b))
  {
    var db := Run(EmptyDb(), events);
    RunKeepsMoney(EmptyDb(), events);
    forall c | c in db.cases ensures PaidOnce(db, c) && CaseRefs(db, c) { }
    forall b | b in db.bills ensures Covered(db, b) { }
  }
}
