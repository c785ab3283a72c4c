/** Monthly owner-account renewals: internal/service/account_cost.go and AccrueAccountRenewal. */
module AccountRenewals {
  import opened Instants
  import Collections

  // ---- calendar dates

  predicate IsLeap(year: int) {
    year % 4 == 0 && (year % 100 != 0 || year % 400 == 0)
  }

  /** The last day of month `month`, counted from month 0 of year 0. */
  function LastDay(month: int): (day: int)
    ensures 28 <= day <= 31
  {
    var m := month % 12 + 1;
    if m == 2 then (if IsLeap(month / 12) then 29 else 28)
    else if m in {4, 6, 9, 11} then 30
    else 31
  }

  datatype Date = Date(year: int, month: int, day: int) {
    /** Months since the start of year 0. */
    function Month(): int {
      year * 12 + month - 1
    }

    predicate Valid() {
      1 <= month <= 12 && 1 <= day <= LastDay(Month())
    }

    predicate Before(other: Date) {
      Month() < other.Month() || (Month() == other.Month() && day < other.day)
    }

    function NextDay(): Date {
      if day < LastDay(Month()) then Date(year, month, day + 1)
      else if month < 12 then Date(year, month + 1, 1)
      else Date(year + 1, 1, 1)
    }
  }

  function AddDays(d: Date, days: nat): Date
    decreases days
  {
    if days == 0 then d else AddDays(d.NextDay(), days - 1)
  }

  function DateOf(month: int, day: int): Date {
    Date(month / 12, month % 12 + 1, day)
  }

  lemma DatesAgree(a: Date, b: Date)
    requires a.Valid() && b.Valid()
    ensures a.Month() == b.Month() && a.day == b.day <==> a == b
    ensures !a.Before(b) && !b.Before(a) <==> a == b
    ensures DateOf(a.Month(), a.day) == a
  {
  }

  // ---- anniversaries

  /** The anniversary falling in month `k`, moved back to the month's last day when it is too short. */
  function Anniversary(k: int, openedDay: int): Date {
    DateOf(k, if openedDay > LastDay(k) then LastDay(k) else openedDay)
  }

  ghost predicate IsAnniversary(openedAt: Date, date: Date) {
    exists k: int :: date == Anniversary(k, openedAt.day)
  }

  lemma AnniversaryInMonth(k: int, openedDay: int)
    requires 1 <= openedDay <= 31
    ensures Anniversary(k, openedDay).Month() == k && Anniversary(k, openedDay).Valid()
  {
  }

  lemma AnniversariesIncrease(i: int, j: int, openedDay: int)
    requires 1 <= openedDay <= 31
    ensures Anniversary(i, openedDay).Before(Anniversary(j, openedDay)) <==> i < j
  {
    AnniversaryInMonth(i, openedDay);
    AnniversaryInMonth(j, openedDay);
  }

  lemma OpeningIsAnniversary(openedAt: Date)
    requires openedAt.Valid()
    ensures Anniversary(openedAt.Month(), openedAt.day) == openedAt
  {
    DatesAgree(openedAt, openedAt);
  }

  /** Month `k` holds the first anniversary after both the opening and `after`. */
  ghost predicate IsNextMonth(openedAt: Date, after: Date, k: int) {
    && openedAt.Before(Anniversary(k, openedAt.day)) && after.Before(Anniversary(k, openedAt.day))
    && forall j: int ::
      openedAt.Before(Anniversary(j, openedAt.day)) && after.Before(Anniversary(j, openedAt.day)) ==> k <= j
  }

  function NextMonth(openedAt: Date, after: Date): int {
    var m := if after.Before(Anniversary(after.Month(), openedAt.day)) then after.Month() else after.Month() + 1;
    if m <= openedAt.Month() then openedAt.Month() + 1 else m
  }

  lemma NextMonthIsNext(openedAt: Date, after: Date)
    requires openedAt.Valid() && after.Valid()
    ensures IsNextMonth(openedAt, after, NextMonth(openedAt, after))
  {
    var k := NextMonth(openedAt, after);
    AnniversaryInMonth(k, openedAt.day);
    AnniversaryInMonth(after.Month(), openedAt.day);
    forall j: int | openedAt.Before(Anniversary(j, openedAt.day)) && after.Before(Anniversary(j, openedAt.day))
      ensures k <= j
    {
      AnniversaryInMonth(j, openedAt.day);
      OpeningIsAnniversary(openedAt);
    }
  }

  /** From one anniversary the next one is always in the following month: no drift, whatever the day. */
  lemma NextAfterAnniversary(openedAt: Date, k: int)
    requires openedAt.Valid() && openedAt.Month() <= k
    ensures NextMonth(openedAt, Anniversary(k, openedAt.day)) == k + 1
  {
    AnniversaryInMonth(k, openedAt.day);
  }

  function Renewed(openedAt: Date, steps: nat): Date {
    if steps == 0 then openedAt
    else
      var previous := Renewed(openedAt, steps - 1);
      Anniversary(NextMonth(openedAt, previous), openedAt.day)
  }

  /** After n renewals an account openedAt on the 31st is in the n-th month, on its 31st or last day. */
  lemma {:induction false} RenewalsDoNotDrift(openedAt: Date, steps: nat)
    requires openedAt.Valid()
    ensures Renewed(openedAt, steps) == Anniversary(openedAt.Month() + steps, openedAt.day)
  {
    if steps == 0 {
      OpeningIsAnniversary(openedAt);
    } else {
      RenewalsDoNotDrift(openedAt, steps - 1);
      NextAfterAnniversary(openedAt, openedAt.Month() + steps - 1);
    }
  }

  method MonthlyAnniversary(year: int, month: int, openedDay: int) returns (date: Date)
    requires 1 <= month <= 12
    ensures date == Anniversary(year * 12 + month - 1, openedDay)
  {
    var lastDay := LastDay(year * 12 + month - 1);
    date := Date(year, month, if openedDay > lastDay then lastDay else openedDay);
  }

  method NextMonthlyAnniversary(openedAt: Date, after: Date) returns (date: Date)
    requires openedAt.Valid() && after.Valid()
    ensures date == Anniversary(NextMonth(openedAt, after), openedAt.day)
  {
    NextMonthIsNext(openedAt, after);
    ghost var k := NextMonth(openedAt, after);
    var year, month := after.year, after.month;
    date := MonthlyAnniversary(year, month, openedAt.day);
    while !openedAt.Before(date) || !after.Before(date)
      invariant 1 <= month <= 12 && year * 12 + month - 1 <= k
      invariant date == Anniversary(year * 12 + month - 1, openedAt.day)
      decreases k - (year * 12 + month - 1)
    {
      month := month + 1;
      if month > 12 {
        month := 1;
        year := year + 1;
      }
      date := MonthlyAnniversary(year, month, openedAt.day);
    }
  }

  // ---- the cost ledger

  datatype Source = Initial | Renewal | ZeroRenewal

  /** `cumulative` marks an opening entry that carries a historical balance instead of one period's cost. */
  datatype Record = Record(amountCents: int, source: Source, cumulative: bool) {
    /** An ordinary opening entry follows the account's cost and opening date for as long as it stands alone. */
    predicate Follows() {
      source == Initial && !cumulative
    }
  }

  predicate IsOpening(records: map<Date, Record>, date: Date) {
    date in records && records[date].source == Initial
  }

  predicate HasRenewals(records: map<Date, Record>) {
    exists date :: date in records && records[date].source != Initial
  }

  /** `records` holds the automatic entries, of which the table allows one per period. */
  datatype Account = Account(
    openedAt: Option<Date>, banned: bool, costCents: int, zeroRenewal: bool, records: map<Date, Record>)
  {
    ghost predicate Valid() {
      (openedAt.Some? ==> openedAt.value.Valid()) && forall date :: date in records ==> date.Valid()
    }

    /** There is one opening entry at most, an ordinary one lies on the opening date, and renewals need one. */
    ghost predicate Regular() {
      && (forall d, e :: IsOpening(records, d) && IsOpening(records, e) ==> d == e)
      && (openedAt.Some? ==> forall d :: IsOpening(records, d) && !records[d].cumulative ==> d == openedAt.value)
      && (HasRenewals(records) ==> openedAt.Some?)
    }

    predicate Chargeable() {
      !banned && openedAt.Some? && records != map[]
    }

    function NextRecord(): Record {
      if zeroRenewal then Record(0, ZeroRenewal, false) else Record(costCents, Renewal, false)
    }
  }

  datatype AccountError = StateChanged | BannedAccount | NotNextRenewal | TooEarly | OpeningDateLocked | InvalidDate

  datatype Outcome = Done(inserted: bool) | Refused(error: AccountError)

  ghost predicate IsLatest(records: map<Date, Record>, latest: Date) {
    latest in records && forall date :: date in records ==> !latest.Before(date)
  }

  lemma {:induction false} LatestAmong(dates: set<Date>) returns (latest: Date)
    requires dates != {} && forall date :: date in dates ==> date.Valid()
    ensures latest in dates && forall date :: date in dates ==> !latest.Before(date)
  {
    var some :| some in dates;
    var rest := dates - {some};
    assert forall date :: date in dates <==> date == some || date in rest;
    latest := some;
    if rest != {} {
      var other := LatestAmong(rest);
      latest := if some.Before(other) then other else some;
    }
  }

  lemma LatestExists(records: map<Date, Record>)
    requires records != map[] && forall date :: date in records ==> date.Valid()
    ensures exists latest :: IsLatest(records, latest)
  {
    assert records.Keys != {};
    var latest := LatestAmong(records.Keys);
    assert IsLatest(records, latest);
  }

  ghost function Latest(records: map<Date, Record>): (latest: Date)
    requires records != map[] && forall date :: date in records ==> date.Valid()
    ensures IsLatest(records, latest)
    ensures forall other :: IsLatest(records, other) ==> other == latest
  {
    LatestExists(records);
    var latest :| IsLatest(records, latest);
    assert forall other :: IsLatest(records, other) ==> other == latest by {
      forall other | IsLatest(records, other)
        ensures other == latest
      {
        DatesAgree(other, latest);
      }
    }
    latest
  }

  /** INSERT OR IGNORE of one renewal. */
  function Accrued(a: Account, period: Date): Account {
    if a.banned || period in a.records then a else a.(records := a.records[period := a.NextRecord()])
  }

  function AccruedThrough(a: Account, openedAt: Date, today: Date, k: int): Account
    requires 1 <= openedAt.day <= 31
    decreases today.Month() - k + 1
  {
    AnniversaryInMonth(k, openedAt.day);
    if today.Before(Anniversary(k, openedAt.day)) then a
    else AccruedThrough(Accrued(a, Anniversary(k, openedAt.day)), openedAt, today, k + 1)
  }

  /** One scheduler pass over one account. */
  ghost function Processed(a: Account, today: Date): Account
    requires a.Valid()
  {
    if !a.Chargeable() then a
    else AccruedThrough(a, a.openedAt.value, today, NextMonth(a.openedAt.value, Latest(a.records)))
  }

  /** An anniversary that a pass on day `today` has to charge. */
  ghost predicate IsDue(a: Account, today: Date, date: Date)
    requires a.Valid() && a.Chargeable()
  {
    && IsAnniversary(a.openedAt.value, date)
    && a.openedAt.value.Before(date) && Latest(a.records).Before(date) && !today.Before(date)
  }

  /** `date` is one of the anniversaries from month `k` on that a pass on day `today` reaches. */
  ghost predicate Reached(openedAt: Date, today: Date, k: int, date: Date) {
    exists j: int :: k <= j && date == Anniversary(j, openedAt.day) && !today.Before(date)
  }

  lemma {:induction false} AccruedThroughAdds(a: Account, openedAt: Date, today: Date, k: int)
    requires openedAt.Valid() && !a.banned
    requires forall j: int :: k <= j ==> Anniversary(j, openedAt.day) !in a.records
    ensures var a' := AccruedThrough(a, openedAt, today, k);
      && a'.(records := a.records) == a
      && (forall date :: date in a.records ==> date in a'.records && a'.records[date] == a.records[date])
      && (forall date :: date in a'.records && date !in a.records <==> Reached(openedAt, today, k, date))
      && (forall date :: date in a'.records && date !in a.records ==> a'.records[date] == a.NextRecord())
    decreases today.Month() - k + 1
  {
    AnniversaryInMonth(k, openedAt.day);
    var first := Anniversary(k, openedAt.day);
    if today.Before(first) {
      forall j: int | k <= j
        ensures today.Before(Anniversary(j, openedAt.day))
      {
        AnniversaryInMonth(j, openedAt.day);
        AnniversariesIncrease(k, j, openedAt.day);
      }
    } else {
      var b := Accrued(a, first);
      forall j: int | k + 1 <= j
        ensures Anniversary(j, openedAt.day) !in b.records
      {
        AnniversariesIncrease(k, j, openedAt.day);
      }
      AccruedThroughAdds(b, openedAt, today, k + 1);
      ReachedNext(openedAt, today, k);
    }
  }

  lemma ReachedNext(openedAt: Date, today: Date, k: int)
    requires openedAt.Valid() && !today.Before(Anniversary(k, openedAt.day))
    ensures forall date :: Reached(openedAt, today, k, date) <==>
              date == Anniversary(k, openedAt.day) || Reached(openedAt, today, k + 1, date)
  {
  }

  /** A pass charges exactly the anniversaries strictly after the opening date and the latest entry
      and not after today, each once, and leaves every earlier entry alone. */
  lemma ProcessingAddsExactly(a: Account, today: Date)
    requires a.Valid() && a.Chargeable()
    ensures var a' := Processed(a, today);
      && a'.(records := a.records) == a
      && (forall date :: date in a.records ==> date in a'.records && a'.records[date] == a.records[date])
      && (forall date :: date in a'.records && date !in a.records <==> IsDue(a, today, date))
      && forall date :: date in a'.records && date !in a.records ==> a'.records[date] == a.NextRecord()
    ensures Processed(a, today).Valid()
  {
    var openedAt, latest := a.openedAt.value, Latest(a.records);
    var k := NextMonth(openedAt, latest);
    NextMonthIsNext(openedAt, latest);
    forall j: int | k <= j
      ensures Anniversary(j, openedAt.day) !in a.records
      ensures openedAt.Before(Anniversary(j, openedAt.day)) && latest.Before(Anniversary(j, openedAt.day))
    {
      AnniversariesIncrease(k, j, openedAt.day);
    }
    AccruedThroughAdds(a, openedAt, today, k);
    var a' := Processed(a, today);
    forall date
      ensures date in a'.records && date !in a.records <==> IsDue(a, today, date)
    {
      if IsDue(a, today, date) {
        var j: int :| date == Anniversary(j, openedAt.day);
        assert k <= j;
      }
    }
    forall date | date in a'.records
      ensures date.Valid()
    {
      if date !in a.records {
        var j: int :| date == Anniversary(j, openedAt.day);
        AnniversaryInMonth(j, openedAt.day);
      }
    }
  }

  lemma LatestOnly(a: Account, a': Account, today: Date)
    requires a.Valid() && a.Chargeable() && a' == Processed(a, today) && a'.Valid() && a'.Chargeable()
    ensures Latest(a'.records) == Latest(a.records) || IsDue(a, today, Latest(a'.records))
    ensures !Latest(a'.records).Before(Latest(a.records))
  {
    ProcessingAddsExactly(a, today);
    var latest := Latest(a'.records);
    if latest in a.records {
      DatesAgree(latest, Latest(a.records));
    }
  }

  /** Running the pass again on the same day adds nothing. */
  lemma ProcessingTwiceAddsNothing(a: Account, today: Date)
    requires a.Valid()
    ensures Processed(a, today).Valid() && Processed(Processed(a, today), today) == Processed(a, today)
  {
    if a.Chargeable() {
      ProcessingAddsExactly(a, today);
      var a' := Processed(a, today);
      assert Latest(a.records) in a'.records;
      LatestOnly(a, a', today);
      ProcessingAddsExactly(a', today);
      forall date
        ensures date !in Processed(a', today).records || date in a'.records
      {
        if IsDue(a', today, date) {
          assert IsDue(a, today, date);
        }
      }
      assert Processed(a', today).records == a'.records;
    }
  }

  // ---- no gaps

  /** Between two entries no anniversary after the opening is missing. */
  ghost predicate Gapless(a: Account) {
    a.openedAt.Some? ==>
      forall early, date, late |
        early in a.records && late in a.records && early.Before(date) && date.Before(late)
        && IsAnniversary(a.openedAt.value, date) && a.openedAt.value.Before(date) :: date in a.records
  }

  lemma ProcessingKeepsGapless(a: Account, today: Date)
    requires a.Valid() && Gapless(a)
    ensures Processed(a, today).Valid() && Gapless(Processed(a, today))
  {
    if a.Chargeable() {
      ProcessingAddsExactly(a, today);
      var a' := Processed(a, today);
      var latest := Latest(a.records);
      forall early, date, late |
        early in a'.records && late in a'.records && early.Before(date) && date.Before(late)
        && IsAnniversary(a.openedAt.value, date) && a.openedAt.value.Before(date)
        ensures date in a'.records
      {
        var j: int :| date == Anniversary(j, a.openedAt.value.day);
        AnniversaryInMonth(j, a.openedAt.value.day);
        if latest.Before(date) {
          assert IsDue(a, today, date);
        } else {
          DatesAgree(date, latest);
          if date != latest {
            // Both neighbours are old entries: a new one would be after the latest.
            assert early in a.records;
          }
        }
      }
    }
  }

  /** With a gapless ledger, after a pass nothing due between the first entry and today is missing. */
  lemma ProcessingCompletes(a: Account, today: Date, first: Date, date: Date)
    requires a.Valid() && a.Chargeable() && Gapless(a)
    requires first in a.records && first.Before(date) && !today.Before(date)
    requires IsAnniversary(a.openedAt.value, date) && a.openedAt.value.Before(date)
    ensures date in Processed(a, today).records
  {
    ProcessingAddsExactly(a, today);
    var latest := Latest(a.records);
    var j: int :| date == Anniversary(j, a.openedAt.value.day);
    AnniversaryInMonth(j, a.openedAt.value.day);
    if latest.Before(date) {
      assert IsDue(a, today, date);
    } else {
      DatesAgree(date, latest);
    }
  }

  // ---- operator-confirmed renewals

  const NOTICE_DAYS: nat := 3

  ghost function Marked(a: Account, period: Date, today: Date): (Account, Outcome)
    requires a.Valid()
  {
    if a.banned then (a, Refused(BannedAccount))
    else if period in a.records then (a, Done(false))
    else if !a.Chargeable()
      || period != Anniversary(NextMonth(a.openedAt.value, Latest(a.records)), a.openedAt.value.day)
      then (a, Refused(NotNextRenewal))
    else if AddDays(today, NOTICE_DAYS).Before(period) then (a, Refused(TooEarly))
    else (Accrued(a, period), Done(true))
  }

  /** A confirmed renewal is always the very next one, so it can skip none. */
  lemma MarkingKeepsGapless(a: Account, period: Date, today: Date)
    requires a.Valid() && Gapless(a)
    ensures Marked(a, period, today).0.Valid() && Gapless(Marked(a, period, today).0)
  {
    hide NextMonth, Anniversary;
    if Marked(a, period, today).1 == Done(true) {
      var openedAt, latest := a.openedAt.value, Latest(a.records);
      var k := NextMonth(openedAt, latest);
      NextMonthIsNext(openedAt, latest);
      AnniversaryInMonth(k, openedAt.day);
      var a' := Marked(a, period, today).0;
      forall early, date, late |
        early in a'.records && late in a'.records && early.Before(date) && date.Before(late)
        && IsAnniversary(openedAt, date) && openedAt.Before(date)
        ensures date in a'.records
      {
        var j: int :| date == Anniversary(j, openedAt.day);
        AnniversaryInMonth(j, openedAt.day);
        if late == period {
          AnniversariesIncrease(j, k, openedAt.day);
          DatesAgree(date, latest);
          if date != latest {
            assert date.Before(latest);
          }
        }
      }
    }
  }

  // ---- edits before and after the first renewal

  /** The sole entry, if it is an ordinary opening one, takes the account's new cost. */
  function Aligned(records: map<Date, Record>, costCents: int): map<Date, Record> {
    map date | date in records ::
      if records[date].Follows() && records.Keys == {date} then records[date].(amountCents := costCents)
      else records[date]
  }

  /** An ordinary opening entry at the old or new cost that still has to move to the opening date. */
  predicate Misdated(records: map<Date, Record>, date: Date, openedAt: Date, costs: set<int>) {
    && date in records && records[date].Follows() && records[date].amountCents in costs
    && date != openedAt && openedAt !in records
  }

  ghost function Redated(records: map<Date, Record>, openedAt: Option<Date>, costs: set<int>): map<Date, Record> {
    if openedAt.Some? && exists date :: Misdated(records, date, openedAt.value, costs) then
      var date :| Misdated(records, date, openedAt.value, costs);
      (records - {date})[openedAt.value := records[date]]
    else records
  }

  /** An operator's edit of opening date and cost; renewals lock the opening date. */
  ghost function Edited(a: Account, openedAt: Option<Date>, costCents: int, zeroRenewal: bool): (Account, Outcome) {
    if openedAt.Some? && !openedAt.value.Valid() then (a, Refused(InvalidDate))
    else if openedAt != a.openedAt && HasRenewals(a.records) then (a, Refused(OpeningDateLocked))
    else (a.(openedAt := openedAt, costCents := costCents, zeroRenewal := zeroRenewal,
             records := Redated(Aligned(a.records, costCents), openedAt, {a.costCents, costCents})), Done(true))
  }

  /** Once a second entry exists no edit touches the ledger. */
  lemma EditAfterRenewal(a: Account, openedAt: Option<Date>, costCents: int, zeroRenewal: bool)
    requires a.Valid() && a.Regular() && HasRenewals(a.records)
    ensures Edited(a, openedAt, costCents, zeroRenewal).0.records == a.records
    ensures Edited(a, openedAt, costCents, zeroRenewal).0.openedAt == a.openedAt
    ensures Edited(a, openedAt, costCents, zeroRenewal).0.Valid()
    ensures Edited(a, openedAt, costCents, zeroRenewal).0.Regular()
  {
    var renewal :| renewal in a.records && a.records[renewal].source != Initial;
    forall date | date in a.records && a.records[date].Follows()
      ensures a.records.Keys != {date}
    {
      assert renewal in a.records.Keys;
    }
    assert Aligned(a.records, costCents) == a.records;
  }

  /** Before the first renewal there is nothing but the opening entry. */
  lemma OpeningOnly(a: Account, date: Date)
    requires a.Valid() && a.Regular() && !HasRenewals(a.records) && date in a.records
    ensures a.records.Keys == {date} && a.records[date].source == Initial
  {
    forall other | other in a.records
      ensures other == date
    {
      assert IsOpening(a.records, other) && IsOpening(a.records, date);
    }
  }

  /** And then an ordinary opening entry follows the edit, while a historical balance stays. */
  lemma EditBeforeRenewal(a: Account, openedAt: Option<Date>, costCents: int, zeroRenewal: bool, date: Date)
    requires a.Valid() && a.Regular() && !HasRenewals(a.records) && date in a.records
    requires openedAt.Some? ==> openedAt.value.Valid()
    ensures var r := a.records[date];
      Edited(a, openedAt, costCents, zeroRenewal).0.records ==
        if r.cumulative then a.records
        else map[(if openedAt.Some? then openedAt.value else date) := r.(amountCents := costCents)]
    ensures Edited(a, openedAt, costCents, zeroRenewal).0.Valid()
    ensures Edited(a, openedAt, costCents, zeroRenewal).0.Regular()
  {
    OpeningOnly(a, date);
    var r := a.records[date];
    var aligned := Aligned(a.records, costCents);
    assert a.records == map[date := r];
    if r.cumulative {
      assert aligned == a.records;
    } else {
      var costs := {a.costCents, costCents};
      assert aligned == map[date := r.(amountCents := costCents)];
      if openedAt.Some? && openedAt.value != date {
        assert Misdated(aligned, date, openedAt.value, costs);
        assert forall other :: Misdated(aligned, other, openedAt.value, costs) ==> other == date;
        assert aligned - {date} == map[];
      }
    }
  }

  ghost predicate Untouched(a: Account, a': Account, date: Date)
    requires date in a.records
  {
    date in a'.records && a'.records[date] == a.records[date]
  }

  /** No edit can touch the opening entry exactly when another entry exists or it carries a historical balance. */
  lemma OpeningLockedExactly(a: Account, date: Date)
    requires a.Valid() && a.Regular() && IsOpening(a.records, date)
    ensures (forall openedAt, costCents, zeroRenewal ::
              Untouched(a, Edited(a, openedAt, costCents, zeroRenewal).0, date))
       <==> (exists other :: other in a.records && other != date) || a.records[date].cumulative
  {
    if HasRenewals(a.records) {
      forall openedAt, costCents, zeroRenewal
        ensures Untouched(a, Edited(a, openedAt, costCents, zeroRenewal).0, date)
      {
        EditAfterRenewal(a, openedAt, costCents, zeroRenewal);
      }
    } else {
      OpeningOnly(a, date);
      forall openedAt: Option<Date>, costCents, zeroRenewal | openedAt.Some? ==> openedAt.value.Valid()
        ensures a.records[date].cumulative ==> Untouched(a, Edited(a, openedAt, costCents, zeroRenewal).0, date)
      {
        EditBeforeRenewal(a, openedAt, costCents, zeroRenewal, date);
      }
      EditBeforeRenewal(a, a.openedAt, a.records[date].amountCents + 1, a.zeroRenewal, date);
      assert !a.records[date].cumulative ==>
          !Untouched(a, Edited(a, a.openedAt, a.records[date].amountCents + 1, a.zeroRenewal).0, date);
    }
  }

  lemma EditKeepsGapless(a: Account, openedAt: Option<Date>, costCents: int, zeroRenewal: bool)
    requires a.Valid() && a.Regular() && Gapless(a)
    ensures var a' := Edited(a, openedAt, costCents, zeroRenewal).0; a'.Valid() && a'.Regular() && Gapless(a')
  {
    hide Anniversary, NextMonth;
    if HasRenewals(a.records) {
      EditAfterRenewal(a, openedAt, costCents, zeroRenewal);
    } else if a.records != map[] && (openedAt.Some? ==> openedAt.value.Valid()) {
      assert a.records.Keys != {};
      var date :| date in a.records;
      EditBeforeRenewal(a, openedAt, costCents, zeroRenewal, date);
      OpeningOnly(a, date);
    } else {
      assert a.records == map[] ==> Aligned(a.records, costCents) == map[];
    }
  }

  // ---- runs

  datatype Op =
    | ProcessOp(today: Date)
    | MarkOp(period: Date, today: Date)
    | EditOp(openedAt: Option<Date>, costCents: int, zeroRenewal: bool)
    | BanOp

  ghost function Step(a: Account, op: Op): Account
    requires a.Valid()
  {
    match op
    case ProcessOp(today) => Processed(a, today)
    case MarkOp(period, today) => Marked(a, period, today).0
    case EditOp(openedAt, costCents, zeroRenewal) => Edited(a, openedAt, costCents, zeroRenewal).0
    case BanOp => a.(banned := true)
  }

  ghost predicate Steps(a: Account, op: Op, a': Account) {
    a.Valid() && a' == Step(a, op)
  }

  ghost predicate IsRun(accounts: seq<Account>, ops: seq<Op>) {
    && |accounts| == |ops| + 1
    && forall i {:trigger ops[i]} :: 0 <= i < |ops| ==> Steps(accounts[i], ops[i], accounts[i + 1])
  }

  /** Every renewal entry stays as it is, and so does the opening entry once it has company. */
  ghost predicate KeepsHistory(a: Account, a': Account) {
    forall date :: date in a.records && (a.records[date].source != Initial || HasRenewals(a.records)) ==>
      Untouched(a, a', date)
  }

  /** Renewals are never withdrawn, and they lock the opening date. */
  ghost predicate Locked(a: Account, a': Account) {
    HasRenewals(a.records) ==> HasRenewals(a'.records) && a'.openedAt == a.openedAt
  }

  /** Over every run of passes, confirmations, edits of cost and opening date, and bans the ledger stays
      gapless and its history immutable. */
  lemma {:induction false} RunStaysGapless(accounts: seq<Account>, ops: seq<Op>, n: nat)
    requires IsRun(accounts, ops) && accounts[0].Valid() && accounts[0].Regular() && Gapless(accounts[0])
    requires n < |accounts|
    ensures accounts[n].Valid() && accounts[n].Regular() && Gapless(accounts[n])
    ensures KeepsHistory(accounts[0], accounts[n])
    ensures Locked(accounts[0], accounts[n])
  {
    if n > 0 {
      RunStaysGapless(accounts, ops, n - 1);
      EachStep(accounts, ops, n - 1);
      HistoryTransitive(accounts[0], accounts[n - 1], accounts[n]);
    }
  }

  lemma EachStep(accounts: seq<Account>, ops: seq<Op>, n: nat)
    requires IsRun(accounts, ops) && n < |ops| && accounts[n].Valid() && accounts[n].Regular() && Gapless(accounts[n])
    ensures accounts[n + 1].Valid() && accounts[n + 1].Regular() && Gapless(accounts[n + 1])
    ensures KeepsHistory(accounts[n], accounts[n + 1]) && Locked(accounts[n], accounts[n + 1])
  {
    assert Steps(accounts[n], ops[n], accounts[n + 1]);
    StepStaysGapless(accounts[n], ops[n]);
    StepKeepsHistory(accounts[n], ops[n]);
  }

  lemma HistoryTransitive(a: Account, b: Account, c: Account)
    requires KeepsHistory(a, b) && KeepsHistory(b, c) && Locked(a, b) && Locked(b, c)
    ensures KeepsHistory(a, c) && Locked(a, c)
  {
  }

  lemma StepStaysGapless(a: Account, op: Op)
    requires a.Valid() && a.Regular() && Gapless(a)
    ensures Step(a, op).Valid() && Step(a, op).Regular() && Gapless(Step(a, op))
  {
    hide Edited, Processed, Marked;
    match op
    case ProcessOp(today) =>
      ProcessingKeepsGapless(a, today);
      ProcessingKeepsRegular(a, today);
    case MarkOp(period, today) =>
      MarkingKeepsGapless(a, period, today);
      MarkingKeepsRegular(a, period, today);
    case EditOp(openedAt, costCents, zeroRenewal) => EditKeepsGapless(a, openedAt, costCents, zeroRenewal);
    case BanOp =>
  }

  lemma ProcessingKeepsRegular(a: Account, today: Date)
    requires a.Valid() && a.Regular()
    ensures Processed(a, today).Regular()
  {
    hide AccruedThrough, Anniversary, NextMonth, IsDue;
    if a.Chargeable() {
      ProcessingAddsExactly(a, today);
      RenewalsKeepRegular(a, Processed(a, today));
    }
  }

  lemma MarkingKeepsRegular(a: Account, period: Date, today: Date)
    requires a.Valid() && a.Regular()
    ensures Marked(a, period, today).0.Regular()
  {
    hide Anniversary, NextMonth;
    RenewalsKeepRegular(a, Marked(a, period, today).0);
  }

  /** Adding renewals to an account with an opening date. */
  lemma RenewalsKeepRegular(a: Account, a': Account)
    requires a.Regular() && a'.openedAt == a.openedAt && (a.openedAt.Some? || a'.records == a.records)
    requires forall date :: date in a'.records ==>
      (date in a.records && a'.records[date] == a.records[date]) || a'.records[date].source != Initial
    ensures a'.Regular()
  {
    forall d | IsOpening(a'.records, d)
      ensures IsOpening(a.records, d) && a.records[d] == a'.records[d]
    {
    }
  }

  lemma StepKeepsHistory(a: Account, op: Op)
    requires a.Valid() && a.Regular()
    ensures KeepsHistory(a, Step(a, op))
    ensures Locked(a, Step(a, op))
  {
    if op.ProcessOp? && a.Chargeable() {
      ProcessingAddsExactly(a, op.today);
    } else if op.EditOp? && HasRenewals(a.records) {
      EditAfterRenewal(a, op.openedAt, op.costCents, op.zeroRenewal);
    }
    if HasRenewals(a.records) {
      var renewal :| renewal in a.records && a.records[renewal].source != Initial;
      assert Untouched(a, Step(a, op), renewal);
    }
  }

  // ---- readers in flight

  /** What a pass or an operator has worked out and may still act on: the opening date it read first, and the
      month of the next period after the latest entry it read second. The ledger may change at any point. */
  datatype Reading = Reading(openedAt: Date, next: int) {
    function Period(): Date {
      Anniversary(next, openedAt.day)
    }
  }

  /** `openings` are the opening dates that somebody has read. */
  datatype World = World(account: Account, openings: set<Date>, readings: set<Reading>)

  datatype Move =
    | ReadOpening
    | ReadLatest(opening: Date)
    | Accrue(reading: Reading)
    | Edit(openedAt: Option<Date>, costCents: int, zeroRenewal: bool)
    | Ban

  /** One move. What was read is never forgotten, so a reader may act late, repeatedly, or not at all. */
  ghost function Moved(w: World, move: Move): World
    requires w.account.Valid()
  {
    var a := w.account;
    match move
    case ReadOpening => if a.banned || a.openedAt.None? then w else w.(openings := w.openings + {a.openedAt.value})
    case ReadLatest(opening) =>
      if opening !in w.openings || a.records == map[] then w
      else w.(readings := w.readings + {ReadingOf(a, opening)})
    case Accrue(r) =>
      if r !in w.readings || a.openedAt != Some(r.openedAt) then w
      else w.(account := Accrued(a, r.Period()), readings := w.readings + {Reading(r.openedAt, r.next + 1)})
    case Edit(openedAt, costCents, zeroRenewal) => w.(account := Edited(a, openedAt, costCents, zeroRenewal).0)
    case Ban => w.(account := a.(banned := true))
  }

  ghost function ReadingOf(a: Account, opening: Date): Reading
    requires a.Valid() && a.records != map[]
  {
    Reading(opening, NextMonth(opening, Latest(a.records)))
  }

  /** No anniversary before month `k` is missing after some entry. */
  ghost predicate FilledUpTo(records: map<Date, Record>, openedAt: Date, k: int) {
    forall early, j: int |
      && early in records && j < k && early.Before(Anniversary(j, openedAt.day))
      && openedAt.Before(Anniversary(j, openedAt.day))
      :: Anniversary(j, openedAt.day) in records
  }

  ghost predicate Preceded(records: map<Date, Record>, period: Date) {
    exists early :: early in records && early.Before(period)
  }

  /** Acting on the reading cannot leave a gap: no earlier anniversary is missing, and some entry precedes it. */
  ghost predicate Covered(records: map<Date, Record>, r: Reading) {
    r.openedAt.Before(r.Period()) && Preceded(records, r.Period()) && FilledUpTo(records, r.openedAt, r.next)
  }

  ghost predicate Safe(a: Account, r: Reading) {
    r.openedAt.Valid() && (!a.banned && a.openedAt == Some(r.openedAt) ==> Covered(a.records, r))
  }

  /** Before the first renewal a reading is what any reader would read under that opening date. */
  ghost predicate Fresh(opening: Date, entry: Record, r: Reading) {
    && r.openedAt.Valid()
    && r.next == NextMonth(r.openedAt, if entry.cumulative then opening else r.openedAt)
  }

  ghost predicate AllFresh(w: World) {
    !HasRenewals(w.account.records) && !w.account.banned && w.readings != {} ==>
      exists opening :: opening in w.account.records &&
        forall r :: r in w.readings ==> Fresh(opening, w.account.records[opening], r)
  }

  ghost predicate Steady(w: World) {
    && w.account.Valid() && w.account.Regular() && Gapless(w.account)
    && (forall opening :: opening in w.openings ==> opening.Valid())
    && (forall r :: r in w.readings ==> Safe(w.account, r))
    && AllFresh(w)
  }

  /** Reading the latest entry now, after reading `opening` before, is as good as reading both at once: the
      account can no longer change its opening date or be charged, or the entry read gives the same period. */
  ghost predicate Harmless(a: Account, opening: Date)
    requires a.Valid()
  {
    a.banned || HasRenewals(a.records) || a.records == map[]
    || Fresh(Latest(a.records), a.records[Latest(a.records)], ReadingOf(a, opening))
  }

  /** That is always so while the opening date is still the one that was read. */
  lemma UnchangedIsHarmless(a: Account, opening: Date)
    requires a.Valid() && a.Regular() && a.openedAt == Some(opening)
    ensures Harmless(a, opening)
  {
    if a.records != map[] && !HasRenewals(a.records) {
      OpeningOnly(a, Latest(a.records));
      assert IsOpening(a.records, Latest(a.records));
    }
  }

  lemma FreshIsCovered(a: Account, opening: Date, r: Reading)
    requires a.Valid() && a.Regular() && !HasRenewals(a.records) && opening in a.records
    requires Fresh(opening, a.records[opening], r) && a.openedAt == Some(r.openedAt)
    ensures Covered(a.records, r)
  {
    OpeningOnly(a, opening);
    assert IsOpening(a.records, opening);
    NextMonthIsNext(r.openedAt, opening);
    assert opening.Before(r.Period());
    forall early, j: int | early in a.records && j < r.next && early.Before(Anniversary(j, r.openedAt.day))
      ensures !r.openedAt.Before(Anniversary(j, r.openedAt.day))
    {
      assert early == opening;
    }
  }

  lemma ReadingIsCovered(a: Account)
    requires a.Valid() && Gapless(a) && a.Chargeable()
    ensures Covered(a.records, ReadingOf(a, a.openedAt.value))
  {
    var openedAt, latest := a.openedAt.value, Latest(a.records);
    var r := ReadingOf(a, openedAt);
    NextMonthIsNext(openedAt, latest);
    assert latest.Before(r.Period());
    forall early, j: int |
      early in a.records && j < r.next && early.Before(Anniversary(j, openedAt.day))
      && openedAt.Before(Anniversary(j, openedAt.day))
      ensures Anniversary(j, openedAt.day) in a.records
    {
      AnniversaryInMonth(j, openedAt.day);
      DatesAgree(Anniversary(j, openedAt.day), latest);
    }
  }

  lemma ReadLatestKeepsSteady(w: World, opening: Date)
    requires Steady(w) && Harmless(w.account, opening)
    ensures Steady(Moved(w, ReadLatest(opening)))
  {
    var a, w' := w.account, Moved(w, ReadLatest(opening));
    if opening in w.openings && a.records != map[] {
      if !a.banned && a.openedAt == Some(opening) { ReadingIsCovered(a); }
      if !a.banned && !HasRenewals(a.records) {
        var latest := Latest(a.records);
        OpeningOnly(a, latest);
        forall r | r in w'.readings
          ensures Fresh(latest, a.records[latest], r)
        {
        }
      }
    }
  }

  /** Acting on a covered reading keeps the ledger gapless. */
  lemma AccrualKeepsGapless(a: Account, r: Reading)
    requires a.Valid() && Gapless(a) && !a.banned && a.openedAt == Some(r.openedAt) && Covered(a.records, r)
    ensures Accrued(a, r.Period()).Valid() && Gapless(Accrued(a, r.Period()))
  {
    hide NextMonth, Anniversary;
    var openedAt, period, a' := r.openedAt, r.Period(), Accrued(a, r.Period());
    AnniversaryInMonth(r.next, openedAt.day);
    var first :| first in a.records && first.Before(period);
    forall early, date, late |
      early in a'.records && late in a'.records && early.Before(date) && date.Before(late)
      && IsAnniversary(openedAt, date) && openedAt.Before(date)
      ensures date in a'.records
    {
      var j: int :| date == Anniversary(j, openedAt.day);
      FilledBetween(a, r, first, early, j, late);
    }
  }

  lemma FilledBetween(a: Account, r: Reading, first: Date, early: Date, j: int, late: Date)
    requires a.Valid() && Gapless(a) && a.openedAt == Some(r.openedAt) && FilledUpTo(a.records, r.openedAt, r.next)
    requires first in a.records && first.Before(r.Period()) && (early in a.records || early == r.Period())
    requires late in a.records || late == r.Period()
    requires var date := Anniversary(j, r.openedAt.day);
      early.Before(date) && date.Before(late) && r.openedAt.Before(date)
    ensures Anniversary(j, r.openedAt.day) in a.records
  {
    var date := Anniversary(j, r.openedAt.day);
    var start := if early in a.records then early else first;
    assert start.Before(date);
    if late in a.records {
      assert IsAnniversary(r.openedAt, date);
    } else {
      AnniversariesIncrease(j, r.next, r.openedAt.day);
    }
  }

  /** And every reading of that opening date covered: those before it, and its own next one. */
  lemma AccrualKeepsCovered(a: Account, r: Reading, other: Reading)
    requires a.Valid() && !a.banned && r.openedAt.Valid() && other.openedAt == r.openedAt && Covered(a.records, r)
    requires Covered(a.records, other) || other.next == r.next + 1
    ensures Covered(Accrued(a, r.Period()).records, other)
  {
    var records, openedAt := Accrued(a, r.Period()).records, r.openedAt;
    var first :| first in a.records && first.Before(r.Period());
    AnniversariesIncrease(r.next, other.next, openedAt.day);
    var before :| before in a.records && before.Before(other.Period());
    assert before in records;
    forall early, j: int |
      && early in records && j < other.next && early.Before(Anniversary(j, openedAt.day))
      && openedAt.Before(Anniversary(j, openedAt.day))
      ensures Anniversary(j, openedAt.day) in records
    {
      var start := if early in a.records then early else first;
      assert start in a.records && start.Before(Anniversary(j, openedAt.day));
    }
  }

  lemma AccrueKeepsSteady(w: World, r: Reading)
    requires Steady(w)
    ensures Steady(Moved(w, Accrue(r)))
  {
    var a, w' := w.account, Moved(w, Accrue(r));
    if r in w.readings && a.openedAt == Some(r.openedAt) && !a.banned {
      assert Safe(a, r);
      AccrualKeepsGapless(a, r);
      RenewalsKeepRegular(a, w'.account);
      forall other | other in w'.readings
        ensures Safe(w'.account, other)
      {
        assert other == Reading(r.openedAt, r.next + 1) || Safe(a, other);
        if other.openedAt == r.openedAt { AccrualKeepsCovered(a, r, other); }
      }
      AccruedHasRenewals(a, r);
    }
  }

  lemma AccruedHasRenewals(a: Account, r: Reading)
    requires a.Valid() && a.Regular() && !a.banned && Preceded(a.records, r.Period())
    ensures HasRenewals(Accrued(a, r.Period()).records)
  {
    var period, records := r.Period(), Accrued(a, r.Period()).records;
    if period !in a.records {
      assert records[period].source != Initial;
    } else if !HasRenewals(a.records) {
      var early :| early in a.records && early.Before(period);
      OpeningOnly(a, early);
    }
  }

  lemma EditKeepsSteady(w: World, openedAt: Option<Date>, costCents: int, zeroRenewal: bool)
    requires Steady(w)
    ensures Steady(Moved(w, Edit(openedAt, costCents, zeroRenewal)))
  {
    var a, w' := w.account, Moved(w, Edit(openedAt, costCents, zeroRenewal));
    EditKeepsGapless(a, openedAt, costCents, zeroRenewal);
    if HasRenewals(a.records) {
      EditAfterRenewal(a, openedAt, costCents, zeroRenewal);
    } else if !a.banned && w.readings != {} && (openedAt.Some? ==> openedAt.value.Valid()) {
      var opening :| opening in a.records && forall r :: r in w.readings ==> Fresh(opening, a.records[opening], r);
      EditBeforeRenewal(a, openedAt, costCents, zeroRenewal, opening);
      OpeningOnly(a, opening);
      FreshAfterEdit(w', a.records[opening], opening,
        if openedAt.Some? && !a.records[opening].cumulative then openedAt.value else opening);
    }
  }

  /** The opening entry has moved or changed its amount; every reading made before is as good as a new one. */
  lemma FreshAfterEdit(w: World, entry: Record, opening: Date, moved: Date)
    requires w.account.Valid() && w.account.Regular() && !HasRenewals(w.account.records)
    requires moved in w.account.records && w.account.records[moved].cumulative == entry.cumulative
    requires entry.cumulative ==> moved == opening
    requires forall r :: r in w.readings ==> Fresh(opening, entry, r)
    ensures AllFresh(w) && forall r :: r in w.readings ==> Safe(w.account, r)
  {
    forall r | r in w.readings
      ensures Fresh(moved, w.account.records[moved], r) && Safe(w.account, r)
    {
      if w.account.openedAt == Some(r.openedAt) { FreshIsCovered(w.account, moved, r); }
    }
  }

  ghost predicate Flies(w: World, move: Move, w': World) {
    w.account.Valid() && w' == Moved(w, move)
  }

  ghost predicate IsFlight(worlds: seq<World>, moves: seq<Move>) {
    |worlds| == |moves| + 1
    && forall i {:trigger moves[i]} :: 0 <= i < |moves| ==> Flies(worlds[i], moves[i], worlds[i + 1])
  }

  ghost predicate HarmlessMove(a: Account, move: Move) {
    move.ReadLatest? ==> a.Valid() && Harmless(a, move.opening)
  }

  /** However passes, confirmations, edits and bans interleave between the two reads and the accrual they lead
      to, the opening-date guard keeps the ledger gapless, provided each second read was harmless. */
  lemma {:induction false} FlightsStayGapless(worlds: seq<World>, moves: seq<Move>, n: nat)
    requires IsFlight(worlds, moves) && Steady(worlds[0]) && n < |worlds|
    requires forall i {:trigger moves[i]} :: 0 <= i < n ==> HarmlessMove(worlds[i].account, moves[i])
    ensures Steady(worlds[n]) && Gapless(worlds[n].account)
  {
    if n > 0 {
      FlightsStayGapless(worlds, moves, n - 1);
      assert Flies(worlds[n - 1], moves[n - 1], worlds[n - 1 + 1]);
      MoveKeepsSteady(worlds[n - 1], moves[n - 1]);
    }
  }

  lemma MoveKeepsSteady(w: World, move: Move)
    requires Steady(w) && HarmlessMove(w.account, move)
    ensures Steady(Moved(w, move))
  {
    match move
    case ReadOpening =>
    case ReadLatest(opening) => ReadLatestKeepsSteady(w, opening);
    case Accrue(r) => AccrueKeepsSteady(w, r);
    case Edit(openedAt, costCents, zeroRenewal) => EditKeepsSteady(w, openedAt, costCents, zeroRenewal);
    case Ban =>
  }

  /** In particular when the opening date is, at each second read, still the one that was read first. */
  lemma {:induction false} UnchangedReadsStayGapless(worlds: seq<World>, moves: seq<Move>, n: nat)
    requires IsFlight(worlds, moves) && Steady(worlds[0]) && n < |worlds|
    requires forall i {:trigger moves[i]} :: 0 <= i < n && moves[i].ReadLatest? ==>
      worlds[i].account.openedAt == Some(moves[i].opening)
    ensures Steady(worlds[n]) && Gapless(worlds[n].account)
  {
    if n > 0 {
      UnchangedReadsStayGapless(worlds, moves, n - 1);
      var w, move := worlds[n - 1], moves[n - 1];
      assert Flies(w, move, worlds[n - 1 + 1]);
      if move.ReadLatest? { UnchangedIsHarmless(w.account, move.opening); }
      MoveKeepsSteady(w, move);
    }
  }

  // ---- what a harmful read does

  /** An accrual that passes the guard keeps the ledger gapless exactly when the latest entry it was computed
      from did not lie beyond the period that is next now. */
  lemma AccrualGaplessExactly(a: Account, read: Date)
    requires a.Valid() && Gapless(a) && !a.banned && a.openedAt.Some? && a.openedAt.value in a.records && read.Valid()
    ensures var openedAt := a.openedAt.value;
      Gapless(Accrued(a, Anniversary(NextMonth(openedAt, read), openedAt.day)))
      <==> NextMonth(openedAt, read) <= NextMonth(openedAt, Latest(a.records))
  {
    var openedAt, latest := a.openedAt.value, Latest(a.records);
    var r, k := Reading(openedAt, NextMonth(openedAt, read)), NextMonth(openedAt, latest);
    NextMonthIsNext(openedAt, read);
    NextMonthIsNext(openedAt, latest);
    if r.next <= k {
      EarlierReadingIsCovered(a, r);
      AccrualKeepsGapless(a, r);
    } else {
      AnniversariesIncrease(k, r.next, openedAt.day);
      GapShows(Accrued(a, r.Period()), openedAt, Anniversary(k, openedAt.day), r.Period());
    }
  }

  lemma EarlierReadingIsCovered(a: Account, r: Reading)
    requires a.Valid() && Gapless(a) && a.Chargeable() && a.openedAt == Some(r.openedAt) && r.openedAt in a.records
    requires r.openedAt.Before(r.Period()) && r.next <= NextMonth(r.openedAt, Latest(a.records))
    ensures Covered(a.records, r)
  {
    ReadingIsCovered(a);
    assert FilledUpTo(a.records, r.openedAt, ReadingOf(a, r.openedAt).next);
  }

  /** Reading the latest entry, putting the opening date back to the one read first, and accruing. */
  ghost function BackAndAccrue(a: Account, opening: Date, costCents: int, zeroRenewal: bool): seq<Move>
    requires a.Valid() && a.records != map[]
  {
    [ReadLatest(opening), Edit(Some(opening), costCents, zeroRenewal), Accrue(ReadingOf(a, opening))]
  }

  /** The condition is exact: after a harmful second read those three moves leave a gap, after a harmless one
      neither they nor any others do. */
  lemma SecondReadHarmlessExactly(w: World, opening: Date, costCents: int, zeroRenewal: bool, worlds: seq<World>)
    requires Steady(w) && opening in w.openings && w.account.records != map[]
    requires IsFlight(worlds, BackAndAccrue(w.account, opening, costCents, zeroRenewal)) && worlds[0] == w
    ensures Gapless(worlds[3].account) <==> Harmless(w.account, opening)
  {
    hide Edited, Accrued, NextMonth, Anniversary;
    var moves := BackAndAccrue(w.account, opening, costCents, zeroRenewal);
    if Harmless(w.account, opening) {
      FlightsStayGapless(worlds, moves, 3);
    } else {
      assert Flies(worlds[0], moves[0], worlds[1]) && Flies(worlds[1], moves[1], worlds[2])
        && Flies(worlds[2], moves[2], worlds[3]);
      HarmfulReadLeavesGap(w.account, opening, costCents, zeroRenewal);
    }
  }

  lemma HarmfulReadLeavesGap(a: Account, opening: Date, costCents: int, zeroRenewal: bool)
    requires a.Valid() && a.Regular() && opening.Valid() && !Harmless(a, opening)
    ensures var back := Edited(a, Some(opening), costCents, zeroRenewal).0;
      back.openedAt == Some(opening) && !Gapless(Accrued(back, ReadingOf(a, opening).Period()))
  {
    var latest := Latest(a.records);
    OpeningOnly(a, latest);
    EditBeforeRenewal(a, Some(opening), costCents, zeroRenewal, latest);
    var back := Edited(a, Some(opening), costCents, zeroRenewal).0;
    assert back.records.Keys == {opening};
    assert Latest(back.records) == opening;
    assert Gapless(back);
    NextMonthFloor(opening, latest);
    AccrualGaplessExactly(back, latest);
  }

  lemma NextMonthFloor(openedAt: Date, after: Date)
    requires openedAt.Valid()
    ensures NextMonth(openedAt, openedAt) == openedAt.Month() + 1 <= NextMonth(openedAt, after)
  {
    OpeningIsAnniversary(openedAt);
  }

  // Opened and read on 31 January, moved to 10 March, the latest entry read, moved back, and the period
  // computed from both reads accrued.

  const JANUARY: Date := Date(2026, 1, 31)
  const MARCH: Date := Date(2026, 3, 10)
  const MIXED: Reading := Reading(JANUARY, 2026 * 12 + 2)

  function OpenedOn(date: Date, costCents: int): Account {
    Account(Some(date), false, costCents, false, map[date := Record(costCents, Initial, false)])
  }

  function MixedMoves(costCents: int): seq<Move> {
    [ReadOpening, Edit(Some(MARCH), costCents, false), ReadLatest(JANUARY), Edit(Some(JANUARY), costCents, false),
     Accrue(MIXED)]
  }

  function MixedWorlds(costCents: int): seq<World> {
    var january, march := OpenedOn(JANUARY, costCents), OpenedOn(MARCH, costCents);
    [World(january, {}, {}), World(january, {JANUARY}, {}), World(march, {JANUARY}, {}),
     World(march, {JANUARY}, {MIXED}),
     World(january, {JANUARY}, {MIXED}),
     World(Accrued(january, MIXED.Period()), {JANUARY}, {MIXED, Reading(JANUARY, MIXED.next + 1)})]
  }

  lemma Redating(from: Date, to: Date, costCents: int)
    requires from.Valid() && to.Valid()
    ensures OpenedOn(from, costCents).Valid() && OpenedOn(from, costCents).Regular()
    ensures Edited(OpenedOn(from, costCents), Some(to), costCents, false).0 == OpenedOn(to, costCents)
  {
    EditBeforeRenewal(OpenedOn(from, costCents), Some(to), costCents, false, from);
  }

  /** The program can run into it: March is charged and February never is. */
  lemma MixedReadsLeaveGap(costCents: int)
    ensures IsFlight(MixedWorlds(costCents), MixedMoves(costCents)) && Steady(MixedWorlds(costCents)[0])
    ensures var charged := MixedWorlds(costCents)[5].account;
      Date(2026, 3, 31) in charged.records && Date(2026, 2, 28) !in charged.records && !Gapless(charged)
  {
    hide Edited, Accrued, NextMonth, Anniversary, Moved;
    MixedFlight(costCents);
    Redating(JANUARY, MARCH, costCents);
    MixedGap(costCents);
  }

  lemma MixedFlight(costCents: int)
    ensures IsFlight(MixedWorlds(costCents), MixedMoves(costCents))
  {
    hide Edited, Accrued, ReadingOf, Anniversary;
    var worlds, moves := MixedWorlds(costCents), MixedMoves(costCents);
    Redating(JANUARY, MARCH, costCents);
    Redating(MARCH, JANUARY, costCents);
    MarchReading(OpenedOn(MARCH, costCents));
    assert Flies(worlds[0], moves[0], worlds[1]) && Flies(worlds[1], moves[1], worlds[2]);
    assert Flies(worlds[2], moves[2], worlds[3]) && Flies(worlds[3], moves[3], worlds[4]);
    assert Flies(worlds[4], moves[4], worlds[5]);
  }

  lemma MixedGap(costCents: int)
    ensures var charged := Accrued(OpenedOn(JANUARY, costCents), MIXED.Period());
      Date(2026, 3, 31) in charged.records && Date(2026, 2, 28) !in charged.records && !Gapless(charged)
  {
    FebruaryAnniversaries();
    assert MIXED.Period() == Date(2026, 3, 31);
    GapShows(Accrued(OpenedOn(JANUARY, costCents), MIXED.Period()), JANUARY, Date(2026, 2, 28), Date(2026, 3, 31));
  }

  lemma MarchReading(a: Account)
    requires a.Valid() && a.records.Keys == {MARCH}
    ensures ReadingOf(a, JANUARY) == MIXED
  {
    assert Latest(a.records) == MARCH;
    assert Anniversary(2026 * 12 + 2, 31) == Date(2026, 3, 31);
  }

  /** The guard is what the unharmed cases rest on: opened and read on 31 January, moved to the 10th, and then
      accrued from the stale reading, the account would be missing 10 February. */
  lemma StaleAccrualWouldLeaveGap(costCents: int)
    ensures Steady(World(OpenedOn(JANUARY, costCents), {}, {}))
    ensures Reading(JANUARY, NextMonth(JANUARY, JANUARY)).Period() == Date(2026, 2, 28)
    ensures var moved := Edited(OpenedOn(JANUARY, costCents), Some(Date(2026, 1, 10)), costCents, false).0;
      Gapless(moved) && !Gapless(Accrued(moved, Date(2026, 2, 28)))
  {
    hide Edited, NextMonth, Anniversary, Accrued;
    var redated := Date(2026, 1, 10);
    Redating(JANUARY, redated, costCents);
    NextMonthFloor(JANUARY, JANUARY);
    FebruaryAnniversaries();
    StaleGap(costCents);
  }

  lemma StaleGap(costCents: int)
    ensures !Gapless(Accrued(OpenedOn(Date(2026, 1, 10), costCents), Date(2026, 2, 28)))
  {
    var redated := Date(2026, 1, 10);
    FebruaryAnniversaries();
    GapShows(Accrued(OpenedOn(redated, costCents), Date(2026, 2, 28)), redated, Date(2026, 2, 10), Date(2026, 2, 28));
  }

  lemma FebruaryAnniversaries()
    ensures Reading(JANUARY, 2026 * 12 + 1).Period() == Date(2026, 2, 28)
    ensures IsAnniversary(Date(2026, 1, 10), Date(2026, 2, 10)) && IsAnniversary(JANUARY, Date(2026, 2, 28))
  {
    assert Anniversary(2026 * 12 + 1, 31) == Date(2026, 2, 28);
    assert Anniversary(2026 * 12 + 1, 10) == Date(2026, 2, 10);
  }

  lemma GapShows(a: Account, early: Date, date: Date, late: Date)
    requires a.openedAt.Some? && early in a.records && late in a.records && early.Before(date) && date.Before(late)
    requires IsAnniversary(a.openedAt.value, date) && a.openedAt.value.Before(date) && date !in a.records
    ensures !Gapless(a)
  {
  }

  // ---- the service and the store

  class AccountLedger {
    var openedAt: Option<Date>
    var banned: bool
    var costCents: int
    var zeroRenewal: bool
    var records: map<Date, Record>

    ghost function Snapshot(): Account
      reads this
    {
      Account(openedAt, banned, costCents, zeroRenewal, records)
    }

    /** A new account with its opening entry, dated by the opening date if there is one and by today if not. */
    constructor (openedAt: Option<Date>, costCents: int, zeroRenewal: bool, today: Date)
      requires today.Valid() && (openedAt.Some? ==> openedAt.value.Valid())
      ensures Snapshot().Valid() && Snapshot().Regular() && Gapless(Snapshot())
      ensures Snapshot() == Account(openedAt, false, costCents, zeroRenewal,
                                    map[(if openedAt.Some? then openedAt.value else today) :=
                                      Record(costCents, Initial, false)])
    {
      var period := today;
      if openedAt.Some? {
        period := openedAt.value;
      }
      this.openedAt, this.banned, this.costCents, this.zeroRenewal := openedAt, false, costCents, zeroRenewal;
      records := map[period := Record(costCents, Initial, false)];
    }

    method LatestPeriod() returns (latest: Option<Date>)
      requires Snapshot().Valid()
      ensures latest.None? <==> records == map[]
      ensures latest.Some? ==> latest.value == Latest(records)
    {
      latest := None;
      var rest := records.Keys;
      while rest != {}
        invariant rest <= records.Keys
        invariant latest.None? ==> rest == records.Keys
        invariant latest.Some? ==> latest.value in records
        invariant latest.Some? ==> forall date :: date in records.Keys - rest ==> !latest.value.Before(date)
        decreases rest
      {
        ghost var member := Collections.SomeMember(rest);
        var date :| date in rest;
        ghost var seen := records.Keys - rest;
        rest := rest - {date};
        assert records.Keys - rest == seen + {date};
        if latest.None? || latest.value.Before(date) {
          latest := Some(date);
        }
      }
      if latest.Some? {
        assert IsLatest(records, latest.value);
      } else {
        assert records.Keys == {};
      }
    }

    /** Inserts one renewal unless the period already has an entry. */
    method AccrueAccountRenewal(period: Date, expectedOpened: Date) returns (outcome: Outcome)
      modifies `records
      ensures openedAt != Some(expectedOpened) ==> outcome == Refused(StateChanged) && Snapshot() == old(Snapshot())
      ensures openedAt == Some(expectedOpened) ==>
        Snapshot() == Accrued(old(Snapshot()), period) && outcome == Done(!banned && period !in old(records))
    {
      if openedAt != Some(expectedOpened) {
        return Refused(StateChanged);
      }
      if banned || period in records {
        return Done(false);
      }
      var amountCents, source := costCents, Renewal;
      if zeroRenewal {
        amountCents, source := 0, ZeroRenewal;
      }
      records := records[period := Record(amountCents, source, false)];
      return Done(true);
    }

    /** Accrues every renewal due through today. */
    method ProcessAccountCostRenewals(today: Date)
      requires Snapshot().Valid()
      modifies `records
      ensures Snapshot() == Processed(old(Snapshot()), today)
    {
      if banned || openedAt.None? {
        return;
      }
      var latest := LatestPeriod();
      if latest.None? {
        return;
      }
      var anchor := openedAt.value;
      var renewalAt := NextMonthlyAnniversary(anchor, latest.value);
      ghost var k := NextMonth(anchor, latest.value);
      NextMonthIsNext(anchor, latest.value);
      AnniversaryInMonth(k, anchor.day);
      ghost var result := Processed(Snapshot(), today);
      while !today.Before(renewalAt)
        invariant openedAt == Some(anchor) && !banned
        invariant renewalAt == Anniversary(k, anchor.day) && anchor.Month() <= k && renewalAt.Month() == k
        invariant AccruedThrough(Snapshot(), anchor, today, k) == result
        decreases today.Month() - k + 1
      {
        var outcome := AccrueAccountRenewal(renewalAt, anchor);
        NextAfterAnniversary(anchor, k);
        AnniversaryInMonth(k, anchor.day);
        AnniversaryInMonth(k + 1, anchor.day);
        renewalAt := NextMonthlyAnniversary(anchor, renewalAt);
        k := k + 1;
      }
    }

    /** Records one renewal the operator has confirmed. */
    method MarkAccountRenewed(period: Date, today: Date) returns (outcome: Outcome)
      requires Snapshot().Valid()
      modifies `records
      ensures (Snapshot(), outcome) == Marked(old(Snapshot()), period, today)
    {
      if banned {
        return Refused(BannedAccount);
      }
      if period in records {
        return Done(false);
      }
      var latest := LatestPeriod();
      if openedAt.None? || latest.None? {
        return Refused(NotNextRenewal);
      }
      var nextAt := NextMonthlyAnniversary(openedAt.value, latest.value);
      if period != nextAt {
        return Refused(NotNextRenewal);
      }
      if AddDays(today, NOTICE_DAYS).Before(period) {
        return Refused(TooEarly);
      }
      outcome := AccrueAccountRenewal(period, openedAt.value);
    }

    /** Saves an edit; the two statements align the opening entry's amount and then its date. */
    method UpdateAccount(opening: Option<Date>, cost: int, zero: bool) returns (outcome: Outcome)
      requires Snapshot().Regular()
      modifies this
      ensures (Snapshot(), outcome) == Edited(old(Snapshot()), opening, cost, zero)
    {
      if opening.Some? && !opening.value.Valid() {
        return Refused(InvalidDate);
      }
      if opening != openedAt && HasRenewals(records) {
        return Refused(OpeningDateLocked);
      }
      var costs := {costCents, cost};
      openedAt, costCents, zeroRenewal := opening, cost, zero;
      records := Aligned(records, cost);
      assert forall date :: IsOpening(records, date) ==> IsOpening(old(records), date);
      if opening.Some? {
        RedateOpening(opening.value, costs);
      }
      return Done(true);
    }

    method RedateOpening(opening: Date, costs: set<int>)
      requires forall d, e :: IsOpening(records, d) && IsOpening(records, e) ==> d == e
      modifies `records
      ensures records == Redated(old(records), Some(opening), costs)
    {
      var rest := records.Keys;
      while rest != {}
        invariant rest <= records.Keys && records == old(records)
        invariant forall date :: date in records.Keys - rest ==> !Misdated(records, date, opening, costs)
        decreases rest
      {
        ghost var member := Collections.SomeMember(rest);
        var date :| date in rest;
        rest := rest - {date};
        if Misdated(records, date, opening, costs) {
          assert forall other :: Misdated(records, other, opening, costs) ==>
            IsOpening(records, other) && IsOpening(records, date);
          var moved := records[date];
          records := records - {date};
          records := records[opening := moved];
          return;
        }
      }
    }
  }
}
