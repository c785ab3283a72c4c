/** Subscriptions, after-sales cases, seats and bills: the transactions of internal/db/after_sales.go,
    cancellation.go, renewal_deferral.go and the matching parts of store.go, each as a function of the
    tables before it. A refused transaction is rolled back. */
module Lifecycles {
  import opened Instants
  import opened Transactions

  datatype Account = Account(bannedOn: Option<int>, paused: bool)

  datatype Subscription = Subscription(
    seat: Option<int>, archivedAt: Option<Instant>, deletedAt: Option<Instant>, frozenUntil: Option<Instant>,
    cancelExpires: Option<Instant>, cancelCase: Option<int>, deferred: bool)
  {
    predicate Active() {
      archivedAt.None? && deletedAt.None?
    }

    /** The subscription keeps others off its seat at `now`: it is in use, or archived and still frozen. */
    predicate Holds(now: Instant) {
      deletedAt.None? && seat.Some? && (archivedAt.None? || (frozenUntil.Some? && now.Before(frozenUntil.value)))
    }
  }

  datatype Source = AccountBan | CustomerCancellation

  datatype Status = Pending | Review | Refunded | Reassigned

  datatype Case = Case(
    account: int, sub: int, bill: Option<int>, eventDay: int, paidCents: int, refundCents: int,
    source: Source, status: Status)
  {
    predicate Open() {
      status in {Pending, Review}
    }
  }

  datatype Bill = Bill(sub: int, due: int, amountCents: int)

  /** One departure that went through the rolling release allowance. The program keeps no such log;
      it is recorded here so that whole runs can be talked about. */
  datatype Departure = Departure(sub: int, account: int, at: Instant, immediate: bool)

  datatype Db = Db(
    accounts: map<int, Account>, seats: map<int, int>, subs: map<int, Subscription>,
    cases: map<int, Case>, bills: map<int, Bill>,
    nextSeat: int, nextSub: int, nextCase: int, nextBill: int,
    departures: seq<Departure>)

  datatype DbError =
    | NotFound
    | AccountPaused
    | AccountBanned
    | SeatReferenceMissing
    | SeatOccupied
    | SeatUnchanged
    | SeatReferenced
    | StateChanged
    | RenewalDeferred
    | OpenAfterSales
    | HasPrepaidPeriods
    | AlreadyProcessed
    | CancellationPending
    | CaseConflict
    | NoOwnerAccount
    | NotReassignable
    | RefundExceedsPayment
    | BillReferenced
    | InvalidAmount
    | RepeatedItem
    | NothingSelected

  type Outcome<+T> = Settlement<T, DbError>

  const IMMEDIATE_RELEASES_PER_WINDOW: nat := 4
  const RELEASE_WINDOW_DAYS: int := 30

  // ---- queries

  predicate HasOpenCase(cases: map<int, Case>, sub: int) {
    exists c :: c in cases && cases[c].sub == sub && cases[c].Open()
  }

  /** The unique key of the case table. */
  predicate CaseRecorded(cases: map<int, Case>, account: int, sub: int, day: int) {
    exists c :: c in cases && cases[c].account == account && cases[c].sub == sub && cases[c].eventDay == day
  }

  /** What case `c` has already given back on one bill. */
  function RefundShare(cases: map<int, Case>, bill: int, c: int): int {
    if c in cases && cases[c].bill == Some(bill) && cases[c].status == Refunded then cases[c].refundCents else 0
  }

  /** Refunds already completed on one bill by the first `n` case numbers, leaving out case `except`. */
  function RefundTotal(cases: map<int, Case>, bill: int, except: int, n: int): int
    decreases n
  {
    if n <= 0 then 0
    else RefundTotal(cases, bill, except, n - 1) + if n - 1 == except then 0 else RefundShare(cases, bill, n - 1)
  }

  /** A later bill of the subscription is not refunded in full. */
  predicate HasFuturePaid(db: Db, sub: int, day: int) {
    exists b :: b in db.bills && db.bills[b].sub == sub && db.bills[b].due > day
                && db.bills[b].amountCents > RefundTotal(db.cases, b, -1, db.nextCase)
  }

  /** The latest bill due on `day` or before; among equal dates the newest. */
  function LatestBill(bills: map<int, Bill>, sub: int, day: int, n: int): (latest: Option<int>)
    ensures latest.Some? ==> latest.value in bills && bills[latest.value].sub == sub && bills[latest.value].due <= day
    ensures forall b :: 0 <= b < n && b in bills && bills[b].sub == sub && bills[b].due <= day ==>
      && latest.Some? && bills[b].due <= bills[latest.value].due
      && (bills[b].due == bills[latest.value].due ==> b <= latest.value)
    decreases n
  {
    if n <= 0 then None
    else
      var before := LatestBill(bills, sub, day, n - 1);
      if n - 1 in bills && bills[n - 1].sub == sub && bills[n - 1].due <= day
         && (before.None? || bills[before.value].due <= bills[n - 1].due)
      then Some(n - 1) else before
  }

  /** The seat-occupancy triggers' condition: somebody else holds the seat. */
  predicate SeatTaken(subs: map<int, Subscription>, seat: int, except: int, now: Instant) {
    exists s :: s in subs && s != except && subs[s].seat == Some(seat) && subs[s].Holds(now)
  }

  predicate SeatInUse(subs: map<int, Subscription>, seat: int, except: int) {
    exists s :: s in subs && s != except && subs[s].seat == Some(seat) && subs[s].Active()
  }

  predicate SeatIsFree(db: Db, account: int, now: Instant, seat: int) {
    seat in db.seats && db.seats[seat] == account && !SeatTaken(db.subs, seat, -1, now)
  }

  /** The account's first seat, from `seat` on, that nobody holds. */
  function FirstFreeSeat(db: Db, account: int, now: Instant, seat: int): (free: Option<int>)
    ensures free.Some? ==> seat <= free.value && SeatIsFree(db, account, now, free.value)
    ensures forall t :: seat <= t < db.nextSeat && SeatIsFree(db, account, now, t) ==> free.Some? && free.value <= t
    decreases db.nextSeat - seat
  {
    if seat >= db.nextSeat then None
    else if SeatIsFree(db, account, now, seat) then Some(seat)
    else FirstFreeSeat(db, account, now, seat + 1)
  }

  function SeatAccount(db: Db, sub: Subscription): Option<int> {
    if sub.seat.Some? && sub.seat.value in db.seats then Some(db.seats[sub.seat.value]) else None
  }

  /** Departures of `account` in the closed window ending at `at`, whoever archived them. */
  function RecentDepartures(db: Db, account: int, except: int, at: Instant): set<int> {
    set s | s in db.subs && s != except && db.subs[s].archivedAt.Some?
            && SeatAccount(db, db.subs[s]) == Some(account)
            && !db.subs[s].archivedAt.value.Before(at.AddDays(-RELEASE_WINDOW_DAYS))
            && !at.Before(db.subs[s].archivedAt.value)
  }

  // ---- refunds

  /** Half-up rounding of paid * remaining / period without ever forming the product. */
  function ProratedRefund(paidCents: int, remainingDays: int, periodDays: int): int {
    if paidCents <= 0 || remainingDays <= 0 || periodDays <= 0 then 0
    else if remainingDays >= periodDays then paidCents
    else paidCents / periodDays * remainingDays
         + (paidCents % periodDays * remainingDays + periodDays / 2) / periodDays
  }

  function RemainingDays(due: int, day: int, warrantyDays: int): int {
    var used := if day - due < 0 then 0 else if day - due > warrantyDays then warrantyDays else day - due;
    warrantyDays - used
  }

  /** What an event on `day` gives back of a bill due on `due`. */
  function RefundOn(paidCents: int, due: int, day: int, warrantyDays: int): int {
    ProratedRefund(paidCents, RemainingDays(due, day, warrantyDays), warrantyDays)
  }

  /** The case opened for an event on `day`: it refunds the latest bill, or asks for a review. */
  function NewCase(db: Db, account: int, sub: int, day: int, warrantyDays: int, source: Source): Case {
    var bill := LatestBill(db.bills, sub, day, db.nextBill);
    if bill.None? then Case(account, sub, None, day, 0, 0, source, Review)
    else
      var paid := db.bills[bill.value].amountCents;
      Case(account, sub, bill, day, paid, RefundOn(paid, db.bills[bill.value].due, day, warrantyDays), source, Pending)
  }

  function InsertCase(db: Db, c: Case): Db {
    db.(cases := db.cases[db.nextCase := c], nextCase := db.nextCase + 1)
  }

  /** Deletes a case only while it is an open customer cancellation. */
  function DropCancellation(cases: map<int, Case>, id: Option<int>): map<int, Case> {
    if id.Some? && id.value in cases && cases[id.value].source == CustomerCancellation && cases[id.value].Open()
    then cases - {id.value} else cases
  }

  /** What completing or editing a refund has to check first; a negative `proposed` stands for the
      amount already stored on the case. */
  function RefundCheck(db: Db, id: int, proposed: int): Option<DbError>
    requires id in db.cases
  {
    var c := db.cases[id];
    var cents := if proposed < 0 then c.refundCents else proposed;
    if HasFuturePaid(db, c.sub, c.eventDay) then Some(HasPrepaidPeriods)
    else if cents < 0 then Some(RefundExceedsPayment)
    else if c.bill.None? then None
    else
      var completed := RefundTotal(db.cases, c.bill.value, id, db.nextCase);
      if completed > c.paidCents || cents > c.paidCents - completed then Some(RefundExceedsPayment) else None
  }

  // ---- seats and subscriptions

  function SeatAvailability(db: Db, seat: int): Option<DbError> {
    if seat !in db.seats || db.seats[seat] !in db.accounts then Some(SeatReferenceMissing)
    else if db.accounts[db.seats[seat]].paused then Some(AccountPaused)
    else if db.accounts[db.seats[seat]].bannedOn.Some? then Some(AccountBanned)
    else None
  }

  predicate SeatClosed(db: Db, seat: int) {
    SeatAvailability(db, seat) in {Some(AccountPaused), Some(AccountBanned)}
  }

  function InsertSubscription(db: Db, seat: Option<int>, now: Instant): Outcome<Db> {
    if seat.Some? && SeatAvailability(db, seat.value).Some? then Refused(SeatAvailability(db, seat.value).value)
    else if seat.Some? && SeatTaken(db.subs, seat.value, -1, now) then Refused(SeatOccupied)
    else Done(db.(subs := db.subs[db.nextSub := Subscription(seat, None, None, None, None, None, false)],
                  nextSub := db.nextSub + 1))
  }

  function MoveSubscription(db: Db, id: int, seat: Option<int>, now: Instant): Outcome<Db> {
    if id !in db.subs then Refused(NotFound)
    else
      var s := db.subs[id];
      if s.deferred && seat != s.seat then Refused(RenewalDeferred)
      else if seat.Some? && seat != s.seat && SeatClosed(db, seat.value)
        then Refused(SeatAvailability(db, seat.value).value)
      else if HasOpenCase(db.cases, id) then Refused(OpenAfterSales)
      else if !s.Active() then Refused(StateChanged)
      else if seat.Some? && SeatAvailability(db, seat.value) == Some(SeatReferenceMissing)
        then Refused(SeatReferenceMissing)
      else if seat.Some? && SeatTaken(db.subs, seat.value, id, now) then Refused(SeatOccupied)
      else Done(db.(subs := db.subs[id := s.(seat := seat)]))
  }

  /** None: the seat is released at once. Some: it stays frozen until the configured moment. */
  function FreezeDeadline(db: Db, id: int, at: Instant, configured: Instant): Outcome<Option<Instant>> {
    if id !in db.subs || !db.subs[id].Active() then Refused(NotFound)
    else
      var account := SeatAccount(db, db.subs[id]);
      if account.None? then Done(None)
      else if |RecentDepartures(db, account.value, id, at)| < IMMEDIATE_RELEASES_PER_WINDOW then Done(None)
      else Done(Some(configured))
  }

  function ArchiveRow(db: Db, id: int, at: Instant, preserve: Option<int>, freeze: Option<Instant>): Outcome<Db> {
    if id !in db.subs || db.subs[id].deletedAt.Some? then Refused(NotFound)
    else
      var s := db.subs[id];
      if preserve.Some? && s.cancelCase != preserve then Refused(AlreadyProcessed)
      else Done(db.(
        subs := db.subs[id := s.(
          archivedAt := if s.archivedAt.Some? then s.archivedAt else Some(at),
          frozenUntil := if s.seat.Some? then freeze else None,
          deferred := false, cancelExpires := None, cancelCase := None)],
        cases := if s.cancelCase == preserve then db.cases else DropCancellation(db.cases, s.cancelCase)))
  }

  /** Archives through the rolling allowance and logs the departure. */
  function Depart(db: Db, id: int, at: Instant, preserve: Option<int>, configured: Instant): Outcome<Db> {
    var freeze := FreezeDeadline(db, id, at, configured);
    if freeze.Refused? then Refused(freeze.error)
    else
      var archived := ArchiveRow(db, id, at, preserve, freeze.value);
      var account := SeatAccount(db, db.subs[id]);
      if archived.Refused? || account.None? then archived
      else Done(archived.value.(departures := db.departures + [Departure(id, account.value, at, freeze.value.None?)]))
  }

  /** `expiry` tells, for a natural expiry, whether the calendar still finds it overdue. */
  function ArchiveSubscription(
    db: Db, id: int, at: Instant, freezeUntil: Option<Instant>, expiry: Option<bool>): Outcome<Db>
  {
    if id !in db.subs then Refused(NotFound)
    else if db.subs[id].deferred then Refused(RenewalDeferred)
    else if expiry.Some? && HasFuturePaid(db, id, at.day) then Refused(HasPrepaidPeriods)
    else if expiry == Some(false) then Refused(StateChanged)
    else if HasOpenCase(db.cases, id) then Refused(OpenAfterSales)
    else if freezeUntil.Some? then Depart(db, id, at, None, freezeUntil.value)
    else ArchiveRow(db, id, at, None, None)
  }

  function UpdateFrozenUntil(db: Db, id: int, until: Instant, now: Instant): Outcome<Db> {
    if id !in db.subs then Refused(NotFound)
    else
      var s := db.subs[id];
      if s.deletedAt.None? && s.archivedAt.Some? && s.seat.Some? && s.frozenUntil.Some?
        && now.Before(s.frozenUntil.value)
      then Done(db.(subs := db.subs[id := s.(frozenUntil := Some(until))]))
      else Refused(NotFound)
  }

  function SoftDelete(db: Db, id: int, now: Instant): Outcome<Db> {
    if id !in db.subs then Refused(NotFound)
    else
      var s := db.subs[id];
      if s.deletedAt.None? && s.archivedAt.Some? && (s.frozenUntil.None? || !now.Before(s.frozenUntil.value))
      then Done(db.(subs := db.subs[id := s.(deletedAt := Some(now))]))
      else Refused(NotFound)
  }

  // ---- account bans

  predicate Affected(db: Db, account: int, id: int) {
    id in db.subs && db.subs[id].Active() && SeatAccount(db, db.subs[id]) == Some(account)
  }

  /** A ban supersedes a cancellation still pending, which could otherwise strand the ban case. */
  function Superseded(db: Db, id: int): Db
    requires id in db.subs
  {
    var s := db.subs[id];
    if s.cancelCase.None? then db
    else db.(cases := DropCancellation(db.cases, s.cancelCase),
      subs := db.subs[id := s.(cancelExpires := None, cancelCase := None)])
  }

  function BanOne(db: Db, account: int, id: int, day: int, warrantyDays: int): Outcome<Db>
    requires id in db.subs
  {
    var s := db.subs[id];
    if s.deferred then Refused(RenewalDeferred)
    else if HasFuturePaid(db, id, day) then Refused(HasPrepaidPeriods)
    else
      var superseded := Superseded(db, id);
      if CaseRecorded(superseded.cases, account, id, day) then Done(superseded)
      else Done(InsertCase(superseded, NewCase(superseded, account, id, day, warrantyDays, AccountBan)))
  }

  function BanFrom(db: Db, account: int, day: int, warrantyDays: int, id: int): Outcome<Db>
    decreases db.nextSub - id
  {
    if id >= db.nextSub then Done(db)
    else if !Affected(db, account, id) then BanFrom(db, account, day, warrantyDays, id + 1)
    else
      var one := BanOne(db, account, id, day, warrantyDays);
      if one.Refused? then one else BanFrom(one.value, account, day, warrantyDays, id + 1)
  }

  /** The first ban date is kept, so repeating a ban cannot open a second case. */
  function BanAccount(db: Db, account: int, day: int, warrantyDays: int): Outcome<Db> {
    if account !in db.accounts then Refused(NotFound)
    else
      var bannedOn := if db.accounts[account].bannedOn.Some? then db.accounts[account].bannedOn.value else day;
      BanFrom(db.(accounts := db.accounts[account := db.accounts[account].(bannedOn := Some(bannedOn))]),
              account, bannedOn, warrantyDays, 0)
  }

  // ---- customer cancellations

  function RequestCancellation(
      db: Db, id: int, requestedAt: Instant, expiresAt: Instant, warrantyDays: int): Outcome<Db>
  {
    if id !in db.subs then Refused(NotFound)
    else
      var s := db.subs[id];
      var account := SeatAccount(db, s);
      if s.deferred then Refused(RenewalDeferred)
      else if !s.Active() then Refused(NotFound)
      else if s.cancelCase.Some? then Refused(CancellationPending)
      else if HasOpenCase(db.cases, id) then Refused(CaseConflict)
      else if account.None? then Refused(NoOwnerAccount)
      else if HasFuturePaid(db, id, requestedAt.day) then Refused(HasPrepaidPeriods)
      else if CaseRecorded(db.cases, account.value, id, requestedAt.day) then Refused(CaseConflict)
      else
        var requested :=
          InsertCase(db, NewCase(db, account.value, id, requestedAt.day, warrantyDays, CustomerCancellation));
        Done(requested.(subs := db.subs[id := s.(cancelExpires := Some(expiresAt), cancelCase := Some(db.nextCase))]))
  }

  predicate Expired(s: Subscription, now: Instant) {
    s.Active() && s.cancelExpires.Some? && !now.Before(s.cancelExpires.value)
  }

  /** The open cancellation cases of subscriptions whose grace period has run out. */
  predicate ExpiredCase(db: Db, c: int, now: Instant)
    requires c in db.cases
  {
    && db.cases[c].source == CustomerCancellation && db.cases[c].Open()
    && exists s :: s in db.subs && Expired(db.subs[s], now) && db.subs[s].cancelCase == Some(c)
  }

  function RestoreExpired(db: Db, now: Instant): Db {
    db.(cases := map c | c in db.cases && !ExpiredCase(db, c, now) :: db.cases[c],
        subs := map s | s in db.subs :: if Expired(db.subs[s], now)
                  then db.subs[s].(cancelExpires := None, cancelCase := None, frozenUntil := None) else db.subs[s])
  }

  function CompleteCancellation(db: Db, id: int, at: Instant, freezeUntil: Instant): Outcome<Db> {
    if id !in db.cases then Refused(NotFound)
    else
      var c := db.cases[id];
      if c.source != CustomerCancellation || !c.Open() then Refused(AlreadyProcessed)
      else if RefundCheck(db, id, -1).Some? then Refused(RefundCheck(db, id, -1).value)
      else Depart(db.(cases := db.cases[id := c.(status := Refunded)]), c.sub, at, Some(id), freezeUntil)
  }

  // ---- after-sales

  /** The service turns a negative amount away before the store sees it. */
  function UpdateCase(db: Db, id: int, refundCents: int): Outcome<Db> {
    if refundCents < 0 then Refused(InvalidAmount)
    else if id !in db.cases then Refused(NotFound)
    else if !db.cases[id].Open() then Refused(AlreadyProcessed)
    else if RefundCheck(db, id, refundCents).Some? then Refused(RefundCheck(db, id, refundCents).value)
    else Done(db.(cases := db.cases[id := db.cases[id].(refundCents := refundCents)]))
  }

  function RefundBan(db: Db, id: int, at: Instant): Outcome<Db>
    requires id in db.cases
  {
    var c := db.cases[id];
    if RefundCheck(db, id, -1).Some? then Refused(RefundCheck(db, id, -1).value)
    else if !c.Open() then Refused(NotFound)
    else if c.sub !in db.subs || !db.subs[c.sub].Active() then Refused(NotFound)
    else
      var s := db.subs[c.sub];
      var cases := db.cases[id := c.(status := Refunded)];
      Done(db.(
        cases := if s.cancelCase == Some(id) then cases else DropCancellation(cases, s.cancelCase),
        subs := db.subs[c.sub :=
          s.(archivedAt := Some(at), cancelExpires := None, cancelCase := None, frozenUntil := None)]))
  }

  /** Why an archived customer cannot go back to the old seat. */
  function UndoRefusal(db: Db, sub: int, now: Instant): Option<DbError> {
    if sub !in db.subs || db.subs[sub].deletedAt.Some? || db.subs[sub].archivedAt.None? then Some(NotFound)
    else if db.subs[sub].seat.None? then Some(SeatOccupied)
    else
      var seat, account := db.subs[sub].seat.value, SeatAccount(db, db.subs[sub]);
      if account.None? || account.value !in db.accounts then Some(NotFound)
      else if db.accounts[account.value].paused then Some(AccountPaused)
      else if SeatInUse(db.subs, seat, sub) || SeatTaken(db.subs, seat, sub, now) then Some(SeatOccupied)
      else None
  }

  function UndoRefund(db: Db, id: int, now: Instant): Outcome<Db>
    requires id in db.cases
  {
    var c := db.cases[id];
    if c.status != Refunded then Refused(NotFound)
    else if UndoRefusal(db, c.sub, now).Some? then Refused(UndoRefusal(db, c.sub, now).value)
    else Done(db.(
      cases := db.cases[id := c.(status := if c.bill.None? then Review else Pending)],
      subs := db.subs[c.sub := db.subs[c.sub].(archivedAt := None)]))
  }

  function SetRefunded(db: Db, id: int, refunded: bool, at: Instant, freezeUntil: Instant): Outcome<Db> {
    if id !in db.cases then Refused(NotFound)
    else if db.cases[id].source == CustomerCancellation then
      if refunded then CompleteCancellation(db, id, at, freezeUntil) else Refused(AlreadyProcessed)
    else if refunded then RefundBan(db, id, at)
    else UndoRefund(db, id, at)
  }

  /** Moves the affected customer to another seat, given or the account's first free one. */
  function Reassign(db: Db, id: int, account: int, seat: Option<int>, now: Instant): Outcome<Db> {
    if id !in db.cases then Refused(NotFound)
    else
      var c := db.cases[id];
      if c.source == CustomerCancellation then Refused(NotReassignable)
      else if !c.Open() then Refused(AlreadyProcessed)
      else if c.sub !in db.subs || !db.subs[c.sub].Active() || account !in db.accounts then Refused(NotFound)
      else if db.accounts[account].paused then Refused(AccountPaused)
      else if db.accounts[account].bannedOn.Some? then Refused(AccountBanned)
      else
        var target := if seat.Some? then seat else FirstFreeSeat(db, account, now, 0);
        if target.None? || target.value !in db.seats || db.seats[target.value] != account
          then Refused(SeatReferenceMissing)
        else if SeatTaken(db.subs, target.value, c.sub, now) then Refused(SeatOccupied)
        else if target == db.subs[c.sub].seat then Refused(SeatUnchanged)
        else Done(db.(subs := db.subs[c.sub := db.subs[c.sub].(seat := target)],
                      cases := db.cases[id := c.(status := Reassigned)]))
  }

  // ---- deferral and batch removal

  predicate Deferrable(db: Db, id: int) {
    id in db.subs && db.subs[id].Active() && db.subs[id].cancelExpires.None? && db.subs[id].cancelCase.None?
    && !HasOpenCase(db.cases, id)
  }

  /** `current` tells whether the reviewed version and due date are still the current ones. */
  function DeferRenewal(db: Db, id: int, current: bool): Outcome<Db> {
    if !Deferrable(db, id) then Refused(NotFound)
    else if !current || db.subs[id].deferred then Refused(StateChanged)
    else Done(db.(subs := db.subs[id := db.subs[id].(deferred := true)]))
  }

  function RestoreRenewal(db: Db, id: int): Outcome<Db> {
    if !Deferrable(db, id) then Refused(NotFound)
    else Done(db.(subs := db.subs[id := db.subs[id].(deferred := false)]))
  }

  datatype Removal = Removal(sub: int, current: bool)

  /** Confirms removals one after the other at one moment; each sees the departures before it. */
  function RemoveFrom(db: Db, items: seq<Removal>, k: nat, now: Instant, freezeUntil: Instant): Outcome<Db>
    requires k <= |items|
    decreases |items| - k
  {
    if k == |items| then Done(db)
    else
      var id := items[k].sub;
      if exists j :: 0 <= j < k && items[j].sub == id then Refused(RepeatedItem)
      else if !Deferrable(db, id) then Refused(NotFound)
      else if !items[k].current || !db.subs[id].deferred then Refused(StateChanged)
      else
        var gone := Depart(db, id, now, None, freezeUntil);
        if gone.Refused? then gone else RemoveFrom(gone.value, items, k + 1, now, freezeUntil)
  }

  function CompleteDeferred(db: Db, items: seq<Removal>, now: Instant, freezeDays: int): Outcome<Db> {
    if items == [] then Refused(NothingSelected) else RemoveFrom(db, items, 0, now, now.AddDays(freezeDays))
  }

  // ---- accounts, seats and bills

  /** A new account of a paused owner starts paused. */
  function AddAccount(db: Db, id: int, paused: bool): Outcome<Db> {
    if id in db.accounts then Refused(StateChanged) else Done(db.(accounts := db.accounts[id := Account(None, paused)]))
  }

  /** Every account of one owner is paused or resumed together. */
  function SetPaused(db: Db, owned: set<int>, paused: bool): Db {
    db.(accounts := map a | a in db.accounts ::
      if a in owned then db.accounts[a].(paused := paused) else db.accounts[a])
  }

  function AddSeat(db: Db, account: int): Outcome<Db> {
    if account !in db.accounts then Refused(NotFound)
    else Done(db.(seats := db.seats[db.nextSeat := account], nextSeat := db.nextSeat + 1))
  }

  function DeleteSeat(db: Db, seat: int): Outcome<Db> {
    if seat !in db.seats then Refused(NotFound)
    else if exists s :: s in db.subs && db.subs[s].seat == Some(seat) then Refused(SeatReferenced)
    else Done(db.(seats := db.seats - {seat}))
  }

  predicate BillLinked(cases: map<int, Case>, bill: int) {
    exists c :: c in cases && cases[c].bill == Some(bill)
  }

  /** A negative amount never comes out of the amount parser or the price columns it is taken from. */
  function AddBill(db: Db, sub: int, due: int, amountCents: int): Outcome<Db> {
    if exists b :: b in db.bills && db.bills[b].sub == sub && db.bills[b].due == due then Done(db)
    else if sub !in db.subs || !db.subs[sub].Active() || HasOpenCase(db.cases, sub) then Refused(StateChanged)
    else if amountCents < 0 then Refused(InvalidAmount)
    else Done(db.(bills := db.bills[db.nextBill := Bill(sub, due, amountCents)], nextBill := db.nextBill + 1,
                  subs := db.subs[sub := db.subs[sub].(deferred := false)]))
  }

  /** The service parses the amount first and turns a negative one away. */
  function UpdateBill(db: Db, bill: int, amountCents: int): Outcome<Db> {
    if amountCents < 0 then Refused(InvalidAmount)
    else if BillLinked(db.cases, bill) then Refused(BillReferenced)
    else if bill !in db.bills then Refused(NotFound)
    else Done(db.(bills := db.bills[bill := db.bills[bill].(amountCents := amountCents)]))
  }

  function DeleteBill(db: Db, bill: int): Outcome<Db> {
    if bill !in db.bills || db.bills[bill].sub !in db.subs then Refused(NotFound)
    else if BillLinked(db.cases, bill) then Refused(BillReferenced)
    else
      var sub := db.bills[bill].sub;
      Done(db.(bills := db.bills - {bill}, subs := db.subs[sub := db.subs[sub].(deferred := false)]))
  }

  // ---- one transaction

  datatype Op =
    | Insert(seat: Option<int>)
    | Move(id: int, seat: Option<int>)
    | Archive(id: int, freezeUntil: Option<Instant>, expiry: Option<bool>)
    | EditFreeze(id: int, until: Instant)
    | Delete(id: int)
    | Ban(account: int, day: int, warrantyDays: int)
    | RequestCancel(id: int, expiresAt: Instant, warrantyDays: int)
    | ExpireCancellations
    | EditCase(id: int, refundCents: int)
    | MarkRefunded(id: int, refunded: bool, freezeAt: Instant)
    | MoveAffected(id: int, account: int, seat: Option<int>)
    | Defer(id: int, current: bool)
    | Restore(id: int)
    | Remove(items: seq<Removal>, freezeDays: int)
    | NewAccount(account: int, paused: bool)
    | Pause(owned: set<int>, paused: bool)
    | NewSeat(account: int)
    | DropSeat(seatId: int)
    | Pay(id: int, due: int, amountCents: int)
    | EditBill(bill: int, amountCents: int)
    | DropBill(bill: int)

  function Step(db: Db, op: Op, now: Instant): Outcome<Db> {
    match op
    case Insert(seat) => InsertSubscription(db, seat, now)
    case Move(id, seat) => MoveSubscription(db, id, seat, now)
    case Archive(id, freezeUntil, expiry) => ArchiveSubscription(db, id, now, freezeUntil, expiry)
    case EditFreeze(id, until) => UpdateFrozenUntil(db, id, until, now)
    case Delete(id) => SoftDelete(db, id, now)
    case Ban(account, day, warrantyDays) => BanAccount(db, account, day, warrantyDays)
    case RequestCancel(id, expiresAt, warrantyDays) => RequestCancellation(db, id, now, expiresAt, warrantyDays)
    case ExpireCancellations => Done(RestoreExpired(db, now))
    case EditCase(id, refundCents) => UpdateCase(db, id, refundCents)
    case MarkRefunded(id, refunded, freezeAt) => SetRefunded(db, id, refunded, now, freezeAt)
    case MoveAffected(id, account, seat) => Reassign(db, id, account, seat, now)
    case Defer(id, current) => DeferRenewal(db, id, current)
    case Restore(id) => RestoreRenewal(db, id)
    case Remove(items, freezeDays) => CompleteDeferred(db, items, now, freezeDays)
    case NewAccount(account, paused) => AddAccount(db, account, paused)
    case Pause(owned, paused) => Done(SetPaused(db, owned, paused))
    case NewSeat(account) => AddSeat(db, account)
    case DropSeat(seat) => DeleteSeat(db, seat)
    case Pay(id, due, amountCents) => AddBill(db, id, due, amountCents)
    case EditBill(bill, amountCents) => UpdateBill(db, bill, amountCents)
    case DropBill(bill) => DeleteBill(db, bill)
  }

  /** A refused transaction leaves every table as it was. */
  function After(db: Db, op: Op, now: Instant): Db {
    var outcome := Step(db, op, now);
    if outcome.Done? then outcome.value else db
  }

  function EmptyDb(): Db {
    Db(map[], map[], map[], map[], map[], 1, 1, 1, 1, [])
  }

  datatype Event = Event(op: Op, at: Instant)

  /** The clock readings of a run never go back. */
  ghost predicate Timely(events: seq<Event>, start: Instant)
    decreases |events|
  {
    events == [] || (!events[0].at.Before(start) && Timely(events[1..], events[0].at))
  }

  function LastClock(events: seq<Event>, start: Instant): Instant
    decreases |events|
  {
    if events == [] then start else LastClock(events[1..], events[0].at)
  }

  function Run(db: Db, events: seq<Event>): Db
    decreases |events|
  {
    if events == [] then db else Run(After(db, events[0].op, events[0].at), events[1..])
  }
}
