/** What the abuse guard guarantees over every run with a non-decreasing clock. */
module RequestGuardLaws {
  import opened Instants
  import opened RequestGuards

  // ---- timestamps

  predicate WindowBefore(w: Window, moment: int) {
    w.startedAt.Some? ==> w.startedAt.value <= moment
  }

  /** Nothing in a client's counters is newer than its last appearance, and its bucket is in range. */
  predicate TimelyState(s: AbuseState) {
    && WindowBefore(s.loginAttempts, s.lastSeen)
    && WindowBefore(s.loginFailures, s.lastSeen)
    && WindowBefore(s.probeFailures, s.lastSeen)
    && WindowBefore(s.rateViolations, s.lastSeen)
    && s.refilledAt <= s.lastSeen
    && 0.0 <= s.tokens <= REQUEST_BURST
  }

  ghost predicate Timely(g: Guard, clock: int) {
    && (forall key :: key in g.states ==> TimelyState(g.states[key]) && g.states[key].lastSeen <= clock)
    && (forall key :: key in g.blocks ==> g.blocks[key] <= clock + IP_BLOCK_DURATION)
  }

  lemma CountedTimely(call: Call, s: AbuseState, now: int)
    requires TimelyState(s) && s.lastSeen == now
    ensures TimelyState(Counted(call, s, now).0) && Counted(call, s, now).0.lastSeen == now
  {
  }

  lemma SeenTimely(g: Guard, key: string, clock: int, now: int, forgetful: bool)
    requires Timely(g, clock) && clock <= now
    ensures Timely(Seen(g, key, now, forgetful).0, now)
    ensures var s := Seen(g, key, now, forgetful).1; s.Some? ==> TimelyState(s.value) && s.value.lastSeen == now
  {
    assert Timely(Cleaned(g, now, forgetful), now);
  }

  lemma BlockTimely(g: Guard, key: string, now: int, healthy: bool)
    requires Timely(g, now)
    ensures Timely(Block(g, key, now, healthy).guard, now)
  {
  }

  lemma ServedTimely(u: Guard, call: Call, clock: int, now: int, healthy: bool, forgetful: bool)
    requires Timely(u, clock) && clock <= now
    ensures Timely(Served(u, call, now, healthy, forgetful).guard, now)
  {
    SeenTimely(u, call.key, clock, now, forgetful);
    var (seen, s) := Seen(u, call.key, now, forgetful);
    if s.Some? {
      CountedTimely(call, s.value, now);
      var counted := seen.(states := seen.states[call.key := Counted(call, s.value, now).0]);
      assert Timely(counted, now);
      BlockTimely(counted, call.key, now, healthy);
    }
  }

  lemma ClearedTimely(g: Guard, key: string, now: int)
    requires Timely(g, now)
    ensures Timely(FailuresCleared(g, key), now)
  {
    assert key in g.states ==> TimelyState(g.states[key]);
  }

  lemma StepTimely(g: Guard, call: Call, clock: int, now: int, healthy: bool, forgetful: bool)
    requires Timely(g, clock) && clock <= now
    ensures Timely(Step(g, call, now, healthy, forgetful).guard, now)
  {
    var u := Unbanned(g, call.key, now);
    assert Timely(u, clock) && Timely(u, now);
    ClearedTimely(u, call.key, now);
    ServedTimely(u, call, clock, now, healthy, forgetful);
  }

  // ---- eviction cannot be noticed

  /** A window that would start afresh at its next event. */
  predicate Lapsed(w: Window, length: int, now: int) {
    w.startedAt.None? || now - w.startedAt.value >= length
  }

  predicate SameWindow(a: Window, b: Window, length: int, now: int) {
    a == b || (Lapsed(a, length, now) && Lapsed(b, length, now))
  }

  predicate FullAt(s: AbuseState, now: int) {
    s.refilledAt <= now && s.tokens + Earned(s.refilledAt, now) >= REQUEST_BURST
  }

  /** Two counters no future call can tell apart. */
  predicate Alike(a: AbuseState, b: AbuseState, now: int) {
    && SameWindow(a.loginAttempts, b.loginAttempts, LOGIN_ATTEMPT_WINDOW, now)
    && SameWindow(a.loginFailures, b.loginFailures, LOGIN_FAILURE_WINDOW, now)
    && SameWindow(a.probeFailures, b.probeFailures, PROBE_FAILURE_WINDOW, now)
    && SameWindow(a.rateViolations, b.rateViolations, RATE_VIOLATION_WINDOW, now)
    && ((a.tokens == b.tokens && a.refilledAt == b.refilledAt) || (FullAt(a, now) && FullAt(b, now)))
    && a.lastSeen == b.lastSeen
  }

  lemma EarnedGrows(from: int, now: int, later: int)
    requires now <= later
    ensures Earned(from, now) <= Earned(from, later)
    ensures from <= now ==> Earned(from, now) >= 0.0
    ensures now - from >= ABUSE_STATE_TTL ==> Earned(from, now) >= REQUEST_BURST
    ensures Earned(from, later) == Earned(from, now) + Earned(now, later)
  {
  }

  lemma AlikeLater(a: AbuseState, b: AbuseState, now: int, later: int)
    requires Alike(a, b, now) && now <= later
    ensures Alike(a, b, later)
  {
    EarnedGrows(a.refilledAt, now, later);
    EarnedGrows(b.refilledAt, now, later);
  }

  /** A client idle for the whole TTL is as good as new. */
  lemma IdleIsFresh(s: AbuseState, now: int)
    requires TimelyState(s) && now - s.lastSeen >= ABUSE_STATE_TTL
    ensures Alike(Fresh(now), s.(lastSeen := now), now)
  {
    EarnedGrows(s.refilledAt, now, now);
  }

  lemma WindowsAlike(a: Window, b: Window, length: int, now: int)
    requires SameWindow(a, b, length, now)
    ensures IncrementWindow(a, length, now) == IncrementWindow(b, length, now)
  {
  }

  lemma CountedAlike(call: Call, a: AbuseState, b: AbuseState, now: int)
    requires Alike(a, b, now) && TimelyState(a) && TimelyState(b) && a.lastSeen == now
    ensures Counted(call, a, now).1 == Counted(call, b, now).1
    ensures Alike(Counted(call, a, now).0, Counted(call, b, now).0, now)
  {
    match call
    case AllowRequest(_) => RefilledAlike(a, b, now);
    case BeginLogin(_) => WindowsAlike(a.loginAttempts, b.loginAttempts, LOGIN_ATTEMPT_WINDOW, now);
    case RecordFailure(_, LoginFailure) => WindowsAlike(a.loginFailures, b.loginFailures, LOGIN_FAILURE_WINDOW, now);
    case RecordFailure(_, RateFailure) => WindowsAlike(a.rateViolations, b.rateViolations, RATE_VIOLATION_WINDOW, now);
    case RecordFailure(_, ProbeFailure) => WindowsAlike(a.probeFailures, b.probeFailures, PROBE_FAILURE_WINDOW, now);
    case CompleteLogin(_, _) =>
  }

  lemma RefilledAlike(a: AbuseState, b: AbuseState, now: int)
    requires Alike(a, b, now) && TimelyState(a) && TimelyState(b) && a.lastSeen == now
    ensures Refilled(a, now).tokens == Refilled(b, now).tokens
    ensures Refilled(a, now).refilledAt == Refilled(b, now).refilledAt
  {
  }

  /** `h` never forgets; `g` has forgotten at most what no longer matters. */
  ghost predicate Mirrors(g: Guard, h: Guard, clock: int) {
    && (forall key :: BanLeft(g, key, clock) == BanLeft(h, key, clock))
    && (forall key :: key in g.states ==> key in h.states && Alike(g.states[key], h.states[key], clock))
    && (forall key :: key in h.states && key !in g.states ==>
          Alike(Fresh(clock), h.states[key].(lastSeen := clock), clock))
  }

  lemma FreshLater(s: AbuseState, now: int, later: int)
    requires Alike(Fresh(now), s.(lastSeen := now), now) && now <= later
    ensures Alike(Fresh(later), s.(lastSeen := later), later)
  {
    EarnedGrows(s.refilledAt, now, later);
  }

  lemma MirrorsLater(g: Guard, h: Guard, clock: int, now: int)
    requires Mirrors(g, h, clock) && clock <= now
    ensures Mirrors(g, h, now)
  {
    forall key
      ensures BanLeft(g, key, now) == BanLeft(h, key, now)
    {
      assert BanLeft(g, key, clock) == BanLeft(h, key, clock);
    }
    forall key | key in g.states
      ensures key in h.states && Alike(g.states[key], h.states[key], now)
    {
      AlikeLater(g.states[key], h.states[key], clock, now);
    }
    forall key | key in h.states && key !in g.states
      ensures Alike(Fresh(now), h.states[key].(lastSeen := now), now)
    {
      FreshLater(h.states[key], clock, now);
    }
  }

  lemma CleaningMirrors(g: Guard, h: Guard, now: int)
    requires Mirrors(g, h, now) && Timely(g, now) && Timely(h, now)
    ensures Mirrors(Cleaned(g, now, true), h, now)
  {
    var c := Cleaned(g, now, true);
    forall key | key in h.states && key !in c.states
      ensures Alike(Fresh(now), h.states[key].(lastSeen := now), now)
    {
      if key in g.states {
        assert Alike(g.states[key], h.states[key], now);
        IdleIsFresh(h.states[key], now);
      }
    }
    forall key
      ensures BanLeft(c, key, now) == BanLeft(h, key, now)
    {
      assert BanLeft(g, key, now) == BanLeft(h, key, now);
    }
  }

  lemma UnbanningMirrors(g: Guard, h: Guard, key: string, now: int)
    requires Mirrors(g, h, now)
    ensures Mirrors(Unbanned(g, key, now), Unbanned(h, key, now), now)
  {
    forall k
      ensures BanLeft(Unbanned(g, key, now), k, now) == BanLeft(Unbanned(h, key, now), k, now)
    {
      assert BanLeft(g, k, now) == BanLeft(h, k, now);
    }
  }

  lemma UpdatingMirrors(g: Guard, h: Guard, key: string, a: AbuseState, b: AbuseState, now: int)
    requires Mirrors(g, h, now) && Alike(a, b, now)
    ensures Mirrors(g.(states := g.states[key := a]), h.(states := h.states[key := b]), now)
  {
    var g', h' := g.(states := g.states[key := a]), h.(states := h.states[key := b]);
    forall k
      ensures BanLeft(g', k, now) == BanLeft(h', k, now)
    {
      assert BanLeft(g, k, now) == BanLeft(h, k, now);
    }
  }

  lemma BlockingMirrors(g: Guard, h: Guard, key: string, now: int, healthy: bool)
    requires Mirrors(g, h, now)
    ensures Mirrors(Block(g, key, now, healthy).guard, Block(h, key, now, healthy).guard, now)
  {
    forall k
      ensures BanLeft(Block(g, key, now, healthy).guard, k, now) == BanLeft(Block(h, key, now, healthy).guard, k, now)
    {
      assert BanLeft(g, k, now) == BanLeft(h, k, now);
    }
  }

  lemma SeenMirrors(g: Guard, h: Guard, key: string, now: int)
    requires Mirrors(g, h, now) && Timely(g, now) && Timely(h, now)
    requires Seen(g, key, now, true).1.Some?
    ensures Mirrors(Seen(g, key, now, true).0, Seen(h, key, now, false).0, now)
    ensures Seen(h, key, now, false).1.Some?
    ensures var a, b := Seen(g, key, now, true).1.value, Seen(h, key, now, false).1.value;
      Alike(a, b, now) && TimelyState(a) && TimelyState(b) && a.lastSeen == now
  {
    CleaningMirrors(g, h, now);
    var c := Cleaned(g, now, true);
    var a, b := Seen(g, key, now, true).1.value, Seen(h, key, now, false).1.value;
    assert Alike(a, b, now);
    UpdatingMirrors(c, h, key, a, b, now);
  }

  /** In one step the evicting guard either refuses for lack of room or answers like the other one. */
  lemma StepMirrors(g: Guard, h: Guard, call: Call, clock: int, now: int, healthy: bool)
    requires Timely(g, clock) && Timely(h, clock) && Mirrors(g, h, clock) && clock <= now
    ensures var t, r := Step(g, call, now, healthy, true), Step(h, call, now, healthy, false);
      t.reply == Full || (t.reply == r.reply && Mirrors(t.guard, r.guard, now))
  {
    var key := call.key;
    MirrorsLater(g, h, clock, now);
    assert BanLeft(g, key, now) == BanLeft(h, key, now);
    if BanLeft(g, key, now) == 0 {
      UnbanningMirrors(g, h, key, now);
      var u, v := Unbanned(g, key, now), Unbanned(h, key, now);
      if call.CompleteLogin? {
        CompletingMirrors(u, v, key, now);
      } else if Seen(u, key, now, true).1.Some? {
        SeenMirrors(u, v, key, now);
        var (seen, s) := Seen(u, key, now, true);
        var (seen', s') := Seen(v, key, now, false);
        CountedAlike(call, s.value, s'.value, now);
        var a, b := Counted(call, s.value, now).0, Counted(call, s'.value, now).0;
        UpdatingMirrors(seen, seen', key, a, b, now);
        BlockingMirrors(seen.(states := seen.states[key := a]), seen'.(states := seen'.states[key := b]), key, now,
          healthy);
      }
    }
  }

  lemma ClearedAlike(a: AbuseState, b: AbuseState, now: int)
    requires Alike(a, b, now)
    ensures Alike(a.(loginFailures := Window(None, 0)), b.(loginFailures := Window(None, 0)), now)
  {
  }

  lemma CompletingMirrors(g: Guard, h: Guard, key: string, now: int)
    requires Mirrors(g, h, now)
    ensures Mirrors(FailuresCleared(g, key), FailuresCleared(h, key), now)
  {
    hide Alike;
    forall k
      ensures BanLeft(FailuresCleared(g, key), k, now) == BanLeft(FailuresCleared(h, key), k, now)
    {
      assert BanLeft(g, k, now) == BanLeft(h, k, now);
    }
    if key in g.states {
      ClearedAlike(g.states[key], h.states[key], now);
    } else if key in h.states {
      ClearedAlike(Fresh(now), h.states[key].(lastSeen := now), now);
    }
  }

  // ---- runs

  datatype Event = Event(call: Call, now: int, healthy: bool)

  /** Events come with a clock that never goes back, starting no earlier than `clock`. */
  ghost predicate Chronological(events: seq<Event>, clock: int) {
    && (forall i :: 0 <= i < |events| ==> clock <= events[i].now)
    && (forall i, j :: 0 <= i < j < |events| ==> events[i].now <= events[j].now)
  }

  function After(g: Guard, e: Event, forgetful: bool): Guard {
    Step(g, e.call, e.now, e.healthy, forgetful).guard
  }

  function Replies(g: Guard, events: seq<Event>, forgetful: bool): seq<Reply>
    decreases |events|
  {
    if events == [] then []
    else [Step(g, events[0].call, events[0].now, events[0].healthy, forgetful).reply]
         + Replies(After(g, events[0], forgetful), events[1..], forgetful)
  }

  lemma {:induction false} RepliesMirror(g: Guard, h: Guard, events: seq<Event>, clock: int)
    requires Timely(g, clock) && Timely(h, clock) && Mirrors(g, h, clock)
    requires Chronological(events, clock)
    requires Full !in Replies(g, events, true)
    ensures Replies(g, events, true) == Replies(h, events, false)
    decreases |events|
  {
    if events != [] {
      var e := events[0];
      StepMirrors(g, h, e.call, clock, e.now, e.healthy);
      StepTimely(g, e.call, clock, e.now, e.healthy, true);
      StepTimely(h, e.call, clock, e.now, e.healthy, false);
      assert Replies(g, events, true)[0] != Full;
      assert Replies(After(g, e, true), events[1..], true) == Replies(g, events, true)[1..];
      RepliesMirror(After(g, e, true), After(h, e, false), events[1..], e.now);
    }
  }

  /** Forgetting a client idle for 30 minutes is unobservable: in every run without a capacity
      refusal the guard answers each call exactly as one that never forgets anything. */
  lemma EvictionUnobservable(g: Guard, events: seq<Event>, clock: int)
    requires Timely(g, clock) && Chronological(events, clock)
    requires Full !in Replies(g, events, true)
    ensures Replies(g, events, true) == Replies(g, events, false)
  {
    RepliesMirror(g, g, events, clock);
  }
}
