/** Capacity and rate bounds of the abuse guard. */
module RequestGuardBounds {
  import opened Instants
  import opened RequestGuards
  import opened RequestGuardLaws
  import opened Collections

  // ---- every admitted client has a ban slot in reserve

  ghost predicate Slots(g: Guard) {
    && g.states.Keys !! g.blocks.Keys
    && |g.states| <= MAX_ABUSE_STATES
    && |g.states| + |g.blocks| <= MAX_BLOCKED_CLIENTS
  }

  /** Bans in force in the table are in force in memory, and the table is within its own limit. */
  ghost predicate RowsCovered(g: Guard, clock: int) {
    && (forall key :: key in g.rows && clock < g.rows[key] ==> key in g.blocks && g.blocks[key] == g.rows[key])
    && |g.rows| <= MAX_ACTIVE_IP_BLOCKS
  }

  lemma SubmapSize<K, V>(a: map<K, V>, b: map<K, V>)
    requires a.Keys <= b.Keys
    ensures |a| <= |b|
  {
    SubsetSize(a.Keys, b.Keys);
    assert |a.Keys| == |a| && |b.Keys| == |b|;
  }

  lemma UpdateSize<K, V>(m: map<K, V>, key: K, value: V)
    ensures |m[key := value]| == |m| + if key in m then 0 else 1
  {
    assert m[key := value].Keys == m.Keys + {key};
    assert |m.Keys| == |m| && |m[key := value].Keys| == |m[key := value]|;
  }

  lemma RemoveSize<K, V>(m: map<K, V>, key: K)
    ensures |m - {key}| == |m| - if key in m then 1 else 0
  {
    assert (m - {key}).Keys == m.Keys - {key};
    assert |m.Keys| == |m| && |(m - {key}).Keys| == |m - {key}|;
  }

  lemma CleanedSlots(g: Guard, now: int)
    requires Slots(g)
    ensures Slots(Cleaned(g, now, true))
    ensures RowsCovered(g, now) ==> RowsCovered(Cleaned(g, now, true), now)
  {
    SubmapSize(Cleaned(g, now, true).states, g.states);
    SubmapSize(Cleaned(g, now, true).blocks, g.blocks);
  }

  lemma UnbannedSlots(g: Guard, key: string, now: int)
    requires Slots(g) && RowsCovered(g, now) && BanLeft(g, key, now) == 0
    ensures Slots(Unbanned(g, key, now)) && RowsCovered(Unbanned(g, key, now), now)
    ensures key !in Unbanned(g, key, now).blocks
  {
    RemoveSize(g.blocks, key);
  }

  lemma SeenSlots(g: Guard, key: string, now: int)
    requires Slots(g) && RowsCovered(g, now) && key !in g.blocks
    ensures var (seen, s) := Seen(g, key, now, true);
      Slots(seen) && RowsCovered(seen, now) && key !in seen.blocks && (s.Some? ==> key in seen.states)
  {
    CleanedSlots(g, now);
    var c := Cleaned(g, now, true);
    if Seen(g, key, now, true).1.Some? {
      UpdateSize(c.states, key, Seen(g, key, now, true).1.value);
    }
  }

  /** Turning a counter into a ban always fits: in memory nothing has to make way for it, and the
      table has room because every row still in force is a ban in memory. */
  lemma BlockFits(g: Guard, key: string, now: int, healthy: bool)
    requires Slots(g) && RowsCovered(g, now) && key in g.states
    ensures var t := Block(g, key, now, healthy);
      && Slots(t.guard) && RowsCovered(t.guard, now) && t.put != CapacityReached
      && (t.put == Stored <==> g.hasStore && healthy && !Blank(key))
  {
    var until := now + IP_BLOCK_DURATION;
    var active := ActiveRows(g.rows, now);
    UpdateSize(g.blocks, key, until);
    RemoveSize(g.states, key);
    SubmapSize(active, g.blocks);
    SubmapSize(active, g.rows);
    UpdateSize(active, key, until);
    assert key !in active;
  }

  lemma JudgedSlots(g: Guard, key: string, counted: AbuseState, flood: bool, now: int, healthy: bool)
    requires Slots(g) && RowsCovered(g, now) && key in g.states
    ensures var t := Judged(g, key, counted, flood, now, healthy);
      Slots(t.guard) && RowsCovered(t.guard, now) && t.put != CapacityReached
  {
    var g' := g.(states := g.states[key := counted]);
    UpdateSize(g.states, key, counted);
    assert g'.states.Keys == g.states.Keys;
    BlockFits(g', key, now, healthy);
  }

  lemma ClearedSlots(g: Guard, key: string, now: int)
    requires Slots(g) && RowsCovered(g, now)
    ensures Slots(FailuresCleared(g, key)) && RowsCovered(FailuresCleared(g, key), now)
  {
    if key in g.states {
      UpdateSize(g.states, key, FailuresCleared(g, key).states[key]);
      assert FailuresCleared(g, key).states.Keys == g.states.Keys;
    }
  }

  lemma ServedSlots(u: Guard, call: Call, now: int, healthy: bool)
    requires Slots(u) && RowsCovered(u, now) && call.key !in u.blocks
    ensures var t := Served(u, call, now, healthy, true);
      Slots(t.guard) && RowsCovered(t.guard, now) && t.put != CapacityReached
  {
    SeenSlots(u, call.key, now);
    var (seen, s) := Seen(u, call.key, now, true);
    if s.Some? {
      var (counted, flood) := Counted(call, s.value, now);
      JudgedSlots(seen, call.key, counted, flood, now, healthy);
    }
  }

  lemma StepSlots(g: Guard, call: Call, clock: int, now: int, healthy: bool)
    requires Slots(g) && RowsCovered(g, clock) && clock <= now
    ensures var t := Step(g, call, now, healthy, true);
      Slots(t.guard) && RowsCovered(t.guard, now) && t.put != CapacityReached
  {
    if BanLeft(g, call.key, now) == 0 {
      var u := Unbanned(g, call.key, now);
      UnbannedSlots(g, call.key, now);
      ClearedSlots(u, call.key, now);
      ServedSlots(u, call, now, healthy);
    }
  }

  lemma SeenKeepsBans(g: Guard, key: string, now: int, forgetful: bool, banned: string)
    requires BanLeft(g, banned, now) > 0
    ensures BanLeft(Unbanned(g, key, now), banned, now) == BanLeft(g, banned, now)
    ensures BanLeft(Seen(g, key, now, forgetful).0, banned, now) == BanLeft(g, banned, now)
  {
  }

  lemma JudgedKeepsBans(
      g: Guard, key: string, counted: AbuseState, flood: bool, now: int, healthy: bool, banned: string)
    requires key != banned
    ensures BanLeft(Judged(g, key, counted, flood, now, healthy).guard, banned, now) == BanLeft(g, banned, now)
  {
  }

  /** A ban in force is never dropped, shortened or lengthened by any call from anyone. */
  lemma StepKeepsBans(g: Guard, call: Call, now: int, healthy: bool, forgetful: bool, banned: string)
    requires BanLeft(g, banned, now) > 0
    ensures var t := Step(g, call, now, healthy, forgetful);
      && BanLeft(t.guard, banned, now) == BanLeft(g, banned, now)
      && (call.key == banned ==> t.reply == Banned(BanLeft(g, banned, now)))
  {
    var key := call.key;
    if key != banned && BanLeft(g, key, now) == 0 {
      var u := Unbanned(g, key, now);
      SeenKeepsBans(g, key, now, forgetful, banned);
      SeenKeepsBans(u, key, now, forgetful, banned);
      var (seen, s) := Seen(u, key, now, forgetful);
      if s.Some? {
        var (counted, flood) := Counted(call, s.value, now);
        JudgedKeepsBans(seen, key, counted, flood, now, healthy, banned);
      }
    }
  }

  /** No stored ban ends later than one begun just now would. */
  ghost predicate RowsRecent(rows: map<string, int>, clock: int) {
    forall key :: key in rows ==> rows[key] <= clock + IP_BLOCK_DURATION
  }

  /** A guard restarted from such a table within its limit meets every condition the bounds start from. */
  lemma NewGuardSlots(rows: map<string, int>, now: int, zero: int)
    requires |rows| <= MAX_ACTIVE_IP_BLOCKS && RowsRecent(rows, now)
    ensures var g := NewGuard(true, rows, now, zero); Slots(g) && RowsCovered(g, now) && Timely(g, now)
    ensures forall key :: key in rows && now < rows[key] ==>
      BanLeft(NewGuard(true, rows, now, zero), key, now) == rows[key] - now
  {
    SubmapSize(ActiveRows(rows, now), rows);
  }

  lemma PutKeepsRowsRecent(rows: map<string, int>, key: string, clock: int, now: int, healthy: bool)
    requires RowsRecent(rows, clock) && clock <= now
    ensures RowsRecent(PutBlock(rows, key, now + IP_BLOCK_DURATION, now, healthy).0, now)
  {
  }

  lemma ServedKeepsRowsRecent(u: Guard, call: Call, clock: int, now: int, healthy: bool)
    requires RowsRecent(u.rows, clock) && clock <= now
    ensures RowsRecent(Served(u, call, now, healthy, true).guard.rows, now)
  {
    PutKeepsRowsRecent(u.rows, call.key, clock, now, healthy);
    var (seen, s) := Seen(u, call.key, now, true);
    assert seen.rows == u.rows && seen.hasStore == u.hasStore;
    if s.Some? {
      var (counted, flood) := Counted(call, s.value, now);
      JudgedRows(seen, call.key, counted, flood, now, healthy);
    }
  }

  lemma JudgedRows(g: Guard, key: string, counted: AbuseState, flood: bool, now: int, healthy: bool)
    ensures var rows := Judged(g, key, counted, flood, now, healthy).guard.rows;
      rows == g.rows || rows == PutBlock(g.rows, key, now + IP_BLOCK_DURATION, now, healthy).0
  {
  }

  lemma StepKeepsRowsRecent(g: Guard, call: Call, clock: int, now: int, healthy: bool)
    requires RowsRecent(g.rows, clock) && clock <= now
    ensures RowsRecent(Step(g, call, now, healthy, true).guard.rows, now)
  {
    ServedKeepsRowsRecent(Unbanned(g, call.key, now), call, clock, now, healthy);
  }

  function GuardAfter(g: Guard, events: seq<Event>): Guard
    decreases |events|
  {
    if events == [] then g else GuardAfter(After(g, events[0], true), events[1..])
  }

  function Puts(g: Guard, events: seq<Event>): seq<PutResult>
    decreases |events|
  {
    if events == [] then []
    else [Step(g, events[0].call, events[0].now, events[0].healthy, true).put]
         + Puts(After(g, events[0], true), events[1..])
  }

  /** Over every run counters and bans stay disjoint and within the shared budget, and the ban table
      never refuses a ban for lack of room. */
  lemma {:induction false} RunSlots(g: Guard, events: seq<Event>, clock: int)
    requires Slots(g) && RowsCovered(g, clock) && Chronological(events, clock)
    ensures Slots(GuardAfter(g, events)) && CapacityReached !in Puts(g, events)
    decreases |events|
  {
    if events != [] {
      StepSlots(g, events[0].call, clock, events[0].now, events[0].healthy);
      RunSlots(After(g, events[0], true), events[1..], events[0].now);
    }
  }

  /** The invariants the bounds start from hold again wherever a run has got to. */
  lemma {:induction false} RunKeepsInvariants(g: Guard, events: seq<Event>, clock: int, end: int)
    requires Slots(g) && RowsCovered(g, clock) && Timely(g, clock) && Chronological(events, clock)
    requires clock <= end && forall i :: 0 <= i < |events| ==> events[i].now <= end
    ensures Slots(GuardAfter(g, events)) && RowsCovered(GuardAfter(g, events), end)
    ensures Timely(GuardAfter(g, events), end)
    decreases |events|
  {
    if events != [] {
      StepSlots(g, events[0].call, clock, events[0].now, events[0].healthy);
      StepTimely(g, events[0].call, clock, events[0].now, events[0].healthy, true);
      RunKeepsInvariants(After(g, events[0], true), events[1..], events[0].now, end);
    }
  }

  lemma {:induction false} RunKeepsRowsRecent(g: Guard, events: seq<Event>, clock: int, end: int)
    requires RowsRecent(g.rows, clock) && Chronological(events, clock)
    requires clock <= end && forall i :: 0 <= i < |events| ==> events[i].now <= end
    ensures RowsRecent(GuardAfter(g, events).rows, end)
    decreases |events|
  {
    if events != [] {
      StepKeepsRowsRecent(g, events[0].call, clock, events[0].now, events[0].healthy);
      RunKeepsRowsRecent(After(g, events[0], true), events[1..], events[0].now, end);
    }
  }

  /** A guard restarted after any run is ready for the next one, and of the bans in force it keeps exactly
      those that reached the table, each with the time it had left. */
  lemma RestartKeepsStoredBans(g: Guard, events: seq<Event>, clock: int, end: int, zero: int)
    requires Slots(g) && RowsCovered(g, clock) && Timely(g, clock) && RowsRecent(g.rows, clock)
    requires Chronological(events, clock) && clock <= end && forall i :: 0 <= i < |events| ==> events[i].now <= end
    ensures var before := GuardAfter(g, events);
      var restarted := NewGuard(true, before.rows, end, zero);
      && Slots(restarted) && RowsCovered(restarted, end) && Timely(restarted, end) && RowsRecent(restarted.rows, end)
      && forall key :: BanLeft(restarted, key, end)
                       == if key in before.rows && end < before.rows[key] then BanLeft(before, key, end) else 0
  {
    RunKeepsInvariants(g, events, clock, end);
    RunKeepsRowsRecent(g, events, clock, end);
    NewGuardSlots(GuardAfter(g, events).rows, end, zero);
  }

  /** Over every run a ban lasts until its end, and while it lasts its client is refused everything. */
  lemma {:induction false} BanLastsToItsEnd(g: Guard, events: seq<Event>, banned: string, until: int)
    requires banned in g.blocks && g.blocks[banned] == until
    requires Chronological(events, if events == [] then 0 else events[0].now)
    requires forall i :: 0 <= i < |events| ==> events[i].now < until
    ensures banned in GuardAfter(g, events).blocks && GuardAfter(g, events).blocks[banned] == until
    ensures |Replies(g, events, true)| == |events|
    ensures forall i :: 0 <= i < |events| && events[i].call.key == banned ==>
      Replies(g, events, true)[i] == Banned(until - events[i].now)
    decreases |events|
  {
    if events != [] {
      var e := events[0];
      StepKeepsBans(g, e.call, e.now, e.healthy, true, banned);
      BanLastsToItsEnd(After(g, e, true), events[1..], banned, until);
    }
  }

  // ---- request rate

  /** Tokens a client could spend at `now`. A banned client earned its last ones when the ban began. */
  function Level(g: Guard, key: string, now: int): real {
    if key in g.blocks then Capped(Earned(g.blocks[key] - IP_BLOCK_DURATION, now))
    else if key in g.states then Capped(g.states[key].tokens + Earned(g.states[key].refilledAt, now))
    else REQUEST_BURST
  }

  lemma LevelRises(g: Guard, key: string, clock: int, now: int)
    requires clock <= now
    ensures Level(g, key, now) <= Level(g, key, clock) + Earned(clock, now)
    ensures Level(g, key, now) <= REQUEST_BURST
  {
  }

  lemma UnbannedLevel(g: Guard, key: string, client: string, now: int)
    requires Slots(g)
    ensures Level(Unbanned(g, key, now), client, now) <= Level(g, client, now)
  {
    if client == key && key in g.blocks && g.blocks[key] <= now {
      EarnedGrows(g.blocks[key] - IP_BLOCK_DURATION, now, now);
    }
  }

  lemma CleanedLevel(g: Guard, client: string, now: int)
    requires Slots(g) && Timely(g, now)
    ensures Level(Cleaned(g, now, true), client, now) <= Level(g, client, now)
  {
    if client in g.blocks {
      EarnedGrows(g.blocks[client] - IP_BLOCK_DURATION, now, now);
    } else if client in g.states {
      EarnedGrows(g.states[client].refilledAt, now, now);
    }
  }

  lemma SeenLevel(g: Guard, key: string, client: string, now: int)
    requires Slots(g) && Timely(g, now) && key !in g.blocks
    ensures Level(Seen(g, key, now, true).0, client, now) <= Level(g, client, now)
  {
    CleanedLevel(g, client, now);
  }

  lemma BlockLevel(g: Guard, key: string, client: string, now: int, healthy: bool)
    requires Slots(g) && Timely(g, now) && key in g.states
    ensures Level(Block(g, key, now, healthy).guard, client, now) <= Level(g, client, now)
  {
    if client == key {
      EarnedGrows(g.states[key].refilledAt, now, now);
    }
  }

  lemma JudgedLevel(g: Guard, key: string, counted: AbuseState, flood: bool, client: string, now: int, healthy: bool)
    requires Slots(g) && Timely(g, now) && key in g.states && TimelyState(counted) && counted.lastSeen == now
    ensures Level(Judged(g, key, counted, flood, now, healthy).guard, client, now)
      <= if client == key then Capped(counted.tokens + Earned(counted.refilledAt, now)) else Level(g, client, now)
  {
    var g' := g.(states := g.states[key := counted]);
    UpdateSize(g.states, key, counted);
    assert g'.states.Keys == g.states.Keys;
    BlockLevel(g', key, client, now, healthy);
  }

  function Spent(call: Call, client: string, reply: Reply): real {
    if call == AllowRequest(client) && reply == Allowed then 1.0 else 0.0
  }

  /** Each admitted request costs its client one token and nothing ever adds to a level. */
  lemma StepSpends(g: Guard, call: Call, client: string, clock: int, now: int, healthy: bool)
    requires Slots(g) && RowsCovered(g, clock) && Timely(g, clock) && clock <= now
    ensures var t := Step(g, call, now, healthy, true);
      Level(t.guard, client, now) <= Level(g, client, clock) + Earned(clock, now) - Spent(call, client, t.reply)
  {
    LevelRises(g, client, clock, now);
    if BanLeft(g, call.key, now) == 0 {
      UnbannedSlots(g, call.key, now);
      UnbannedLevel(g, call.key, client, now);
      UnbannedTimely(g, call.key, clock, now);
      var u := Unbanned(g, call.key, now);
      ClearedLevel(u, call.key, client, now);
      if !call.CompleteLogin? { ServedSpends(u, call, client, clock, now, healthy); }
    }
  }

  lemma UnbannedTimely(g: Guard, key: string, clock: int, now: int)
    requires Timely(g, clock)
    ensures Timely(Unbanned(g, key, now), clock)
  {
  }

  lemma ClearedLevel(g: Guard, key: string, client: string, now: int)
    ensures Level(FailuresCleared(g, key), client, now) == Level(g, client, now)
  {
  }

  lemma ServedSpends(u: Guard, call: Call, client: string, clock: int, now: int, healthy: bool)
    requires Slots(u) && RowsCovered(u, now) && Timely(u, clock) && clock <= now && call.key !in u.blocks
    requires !call.CompleteLogin?
    ensures var t := Served(u, call, now, healthy, true);
      Level(t.guard, client, now) <= Level(u, client, now) - Spent(call, client, t.reply)
  {
    var key := call.key;
    SeenSlots(u, key, now);
    SeenLevel(u, key, client, now);
    var (seen, s) := Seen(u, key, now, true);
    SeenTimely(u, key, clock, now, true);
    if s.Some? {
      CountedTimely(call, s.value, now);
      CountedLevel(call, s.value, now);
      var (counted, flood) := Counted(call, s.value, now);
      JudgedLevel(seen, key, counted, flood, client, now, healthy);
      assert Level(seen, key, now) == Capped(s.value.tokens + Earned(s.value.refilledAt, now));
    }
  }

  lemma CountedLevel(call: Call, s: AbuseState, now: int)
    requires TimelyState(s) && s.lastSeen == now
    ensures var (counted, flood) := Counted(call, s, now);
      Capped(counted.tokens + Earned(counted.refilledAt, now))
        <= Capped(s.tokens + Earned(s.refilledAt, now)) - if call.AllowRequest? && !flood then 1.0 else 0.0
  {
  }

  function Admitted(g: Guard, events: seq<Event>, client: string): nat
    decreases |events|
  {
    if events == [] then 0
    else
      var e := events[0];
      (if e.call == AllowRequest(client) && Step(g, e.call, e.now, e.healthy, true).reply == Allowed then 1 else 0)
      + Admitted(After(g, e, true), events[1..], client)
  }

  lemma {:induction false} AdmittedWithinLevel(g: Guard, events: seq<Event>, client: string, clock: int, end: int)
    requires Slots(g) && RowsCovered(g, clock) && Timely(g, clock)
    requires Chronological(events, clock) && clock <= end && forall i :: 0 <= i < |events| ==> events[i].now <= end
    ensures Admitted(g, events, client) as real <= Level(g, client, clock) + Earned(clock, end)
    decreases |events|
  {
    if events == [] {
      LevelNonNegative(g, client, clock);
    } else {
      var e := events[0];
      StepSpends(g, e.call, client, clock, e.now, e.healthy);
      StepSlots(g, e.call, clock, e.now, e.healthy);
      StepTimely(g, e.call, clock, e.now, e.healthy, true);
      AdmittedWithinLevel(After(g, e, true), events[1..], client, e.now, end);
      EarnedGrows(clock, e.now, end);
    }
  }

  lemma LevelNonNegative(g: Guard, client: string, clock: int)
    requires Timely(g, clock)
    ensures Level(g, client, clock) >= 0.0
  {
    if client in g.blocks {
      EarnedGrows(g.blocks[client] - IP_BLOCK_DURATION, clock, clock);
    } else if client in g.states {
      EarnedGrows(g.states[client].refilledAt, clock, clock);
    }
  }

  /** In any stretch of T seconds of any run one client gets at most 120 + 6T requests through,
      whatever the other clients do and however often its counters are evicted or its bans end. */
  lemma RequestRateBounded(g: Guard, events: seq<Event>, client: string, start: int, end: int)
    requires Slots(g) && RowsCovered(g, start) && Timely(g, start)
    requires Chronological(events, start) && start <= end && forall i :: 0 <= i < |events| ==> events[i].now <= end
    ensures Admitted(g, events, client) as real
         <= REQUEST_BURST + REQUEST_RATE_PER_SECOND * ((end - start) as real / SECOND as real)
  {
    AdmittedWithinLevel(g, events, client, start, end);
    LevelRises(g, client, start, start);
  }
}
