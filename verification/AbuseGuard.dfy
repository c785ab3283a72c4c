/** The guard's methods and the ban table they write, as the program runs them. */
module AbuseGuards {
  import opened Instants
  import opened RequestGuards
  import Collections

  class BlockTable {
    var rows: map<string, int>

    method ListActiveIPBlocks(now: int) returns (active: map<string, int>)
      ensures active == ActiveRows(rows, now)
    {
      active := map key | key in rows && now < rows[key] :: rows[key];
    }

    /** Prunes expired rows, then adds or extends one ban, all in one transaction. */
    method PutIPBlock(key: string, blockedUntil: int, now: int, healthy: bool) returns (result: PutResult)
      modifies this
      ensures (rows, result) == PutBlock(old(rows), key, blockedUntil, now, healthy)
    {
      if Blank(key) || blockedUntil <= now {
        return InvalidBlock;
      }
      if !healthy {
        return StorageDown;
      }
      var written := map k | k in rows && now < rows[k] :: rows[k];
      var until := blockedUntil;
      if key in written {
        if until < written[key] {
          until := written[key];
        }
      } else if |written| >= MAX_ACTIVE_IP_BLOCKS {
        return CapacityReached;
      }
      rows := written[key := until];
      return Stored;
    }
  }

  class AbuseGuard {
    var states: map<string, AbuseState>
    var blocks: map<string, int>
    var nextCleanup: int
    const store: BlockTable?

    ghost function Snapshot(): Guard
      reads this, store
    {
      Guard(states, blocks, nextCleanup, store != null, if store == null then map[] else store.rows)
    }

    constructor (store: BlockTable?, now: int)
      ensures this.store == store
      ensures Snapshot() == NewGuard(store != null, if store == null then map[] else store.rows, now, 0)
    {
      this.store := store;
      states, nextCleanup := map[], 0;
      blocks := map[];
      new;
      if store != null {
        blocks := store.ListActiveIPBlocks(now);
      }
    }

    method RetryAfterLocked(key: string, now: int) returns (retry: int)
      modifies `blocks
      ensures retry == BanLeft(old(Snapshot()), key, now)
      ensures Snapshot() == if retry > 0 then old(Snapshot()) else Unbanned(old(Snapshot()), key, now)
    {
      if key in blocks {
        if now < blocks[key] {
          return blocks[key] - now;
        }
        blocks := blocks - {key};
      }
      return 0;
    }

    /** Drops idle clients and finished bans, at most once a minute. */
    method Cleanup(now: int)
      modifies `states, `blocks, `nextCleanup
      ensures Snapshot() == Cleaned(old(Snapshot()), now, true)
    {
      if now < nextCleanup {
        return;
      }
      ghost var before, bans := states, blocks;
      var clients := states.Keys;
      while clients != {}
        invariant clients <= before.Keys && blocks == bans
        invariant states == map key |
          key in before && (key in clients || now - before[key].lastSeen < ABUSE_STATE_TTL) :: before[key]
        decreases clients
      {
        ghost var member := Collections.SomeMember(clients);
        var client :| client in clients;
        clients := clients - {client};
        if now - states[client].lastSeen >= ABUSE_STATE_TTL {
          states := states - {client};
        }
      }
      clients := blocks.Keys;
      ghost var kept := states;
      while clients != {}
        invariant clients <= bans.Keys && states == kept
        invariant blocks == map key | key in bans && (key in clients || now < bans[key]) :: bans[key]
        decreases clients
      {
        ghost var member := Collections.SomeMember(clients);
        var client :| client in clients;
        clients := clients - {client};
        if blocks[client] <= now {
          blocks := blocks - {client};
        }
      }
      nextCleanup := now + MINUTE;
    }

    method StateLocked(key: string, now: int) returns (state: Option<AbuseState>)
      modifies `states, `blocks, `nextCleanup
      ensures (Snapshot(), state) == Seen(old(Snapshot()), key, now, true)
    {
      Cleanup(now);
      ghost var cleaned := states;
      if key !in states {
        if |states| >= MAX_ABUSE_STATES || |states| + |blocks| >= MAX_BLOCKED_CLIENTS {
          return None;
        }
        states := states[key := Fresh(now)];
      }
      states := states[key := states[key].(lastSeen := now)];
      assert states == cleaned[key := states[key]];
      return Some(states[key]);
    }

    /** Writes a ban through to the table when there is one. */
    method Persist(key: string, until: int, now: int, healthy: bool) returns (put: PutResult)
      modifies store
      ensures Snapshot().rows ==
        if store == null then old(Snapshot()).rows
        else PutBlock(old(Snapshot()).rows, key, until, now, healthy).0
      ensures put == if store == null then NoPut else PutBlock(old(Snapshot()).rows, key, until, now, healthy).1
    {
      put := NoPut;
      if store != null {
        put := store.PutIPBlock(key, until, now, healthy);
      }
    }

    /** Bans a client that is not banned yet. The ban stands even when the table cannot be written. */
    method BlockLocked(key: string, now: int, healthy: bool) returns (retry: int)
      modifies `states, `blocks, store
      ensures var left := BanLeft(old(Snapshot()), key, now);
        if left > 0 then retry == left && Snapshot() == old(Snapshot())
        else retry == IP_BLOCK_DURATION && Snapshot() == Block(old(Snapshot()), key, now, healthy).guard
    {
      hide PutBlock;
      retry := RetryAfterLocked(key, now);
      if retry > 0 {
        return;
      }
      var until := now + IP_BLOCK_DURATION;
      assert blocks[key := until] == old(blocks)[key := until];
      blocks := blocks[key := until];
      states := states - {key};
      var put := Persist(key, until, now, healthy);
      return IP_BLOCK_DURATION;
    }

    /** Stores a client's new counters and bans it when they say so. */
    method Judge(key: string, counted: AbuseState, flood: bool, now: int, healthy: bool) returns (retry: int)
      requires BanLeft(Snapshot(), key, now) == 0
      modifies `states, `blocks, store
      ensures var t := Judged(old(Snapshot()), key, counted, flood, now, healthy);
        Snapshot() == t.guard && retry == t.reply.Retry()
    {
      states := states[key := counted];
      if flood {
        retry := BlockLocked(key, now, healthy);
      } else {
        retry := 0;
      }
    }

    /** What every counting call begins with: a ban in force or a lack of room sends the client away. */
    method Admit(key: string, now: int) returns (retry: int, state: Option<AbuseState>)
      modifies `states, `blocks, `nextCleanup
      ensures var g := old(Snapshot());
        if BanLeft(g, key, now) > 0 then retry == BanLeft(g, key, now) && state == None && Snapshot() == g
        else (Snapshot(), state) == Seen(Unbanned(g, key, now), key, now, true) && (state.None? ==> retry == MINUTE)
      ensures state.Some? ==> BanLeft(Snapshot(), key, now) == 0
    {
      retry := RetryAfterLocked(key, now);
      if retry > 0 {
        return retry, None;
      }
      state := StateLocked(key, now);
      if state.None? {
        retry := MINUTE;
      }
    }

    /** Refills the bucket for the time elapsed and takes one token out, if there is one. */
    static method SpendToken(key: string, state: AbuseState, now: int) returns (counted: AbuseState, flood: bool)
      ensures (counted, flood) == Counted(RequestGuards.AllowRequest(key), state, now)
    {
      counted := state;
      if now - counted.refilledAt > 0 {
        var tokens := counted.tokens + (now - counted.refilledAt) as real / SECOND as real * REQUEST_RATE_PER_SECOND;
        counted := counted.(tokens := if tokens < REQUEST_BURST then tokens else REQUEST_BURST, refilledAt := now);
      }
      if counted.tokens < 1.0 {
        return counted, true;
      }
      return counted.(tokens := counted.tokens - 1.0), false;
    }

    static method CountFailure(key: string, kind: FailureKind, state: AbuseState, now: int)
      returns (counted: AbuseState, flood: bool)
      ensures (counted, flood) == Counted(RequestGuards.RecordFailure(key, kind), state, now)
    {
      counted := state;
      match kind {
        case LoginFailure =>
          counted := counted.(loginFailures := IncrementWindow(counted.loginFailures, LOGIN_FAILURE_WINDOW, now));
          flood := counted.loginFailures.count >= LOGIN_FAILURE_LIMIT;
        case RateFailure =>
          counted := counted.(rateViolations := IncrementWindow(counted.rateViolations, RATE_VIOLATION_WINDOW, now));
          flood := counted.rateViolations.count >= RATE_VIOLATION_LIMIT;
        case ProbeFailure =>
          counted := counted.(probeFailures := IncrementWindow(counted.probeFailures, PROBE_FAILURE_WINDOW, now));
          flood := counted.probeFailures.count >= PROBE_FAILURE_LIMIT;
      }
    }

    method AllowRequest(key: string, now: int, healthy: bool) returns (retry: int)
      modifies this, store
      ensures var t := Step(old(Snapshot()), RequestGuards.AllowRequest(key), now, healthy, true);
        Snapshot() == t.guard && retry == t.reply.Retry()
    {
      var state;
      retry, state := Admit(key, now);
      if state.None? {
        return;
      }
      var counted, flood := SpendToken(key, state.value, now);
      retry := Judge(key, counted, flood, now, healthy);
    }

    method BeginLogin(key: string, now: int, healthy: bool) returns (retry: int)
      modifies this, store
      ensures var t := Step(old(Snapshot()), RequestGuards.BeginLogin(key), now, healthy, true);
        Snapshot() == t.guard && retry == t.reply.Retry()
    {
      var state;
      retry, state := Admit(key, now);
      if state.None? {
        return;
      }
      var attempts := IncrementWindow(state.value.loginAttempts, LOGIN_ATTEMPT_WINDOW, now);
      retry := Judge(key, state.value.(loginAttempts := attempts), attempts.count > LOGIN_ATTEMPT_LIMIT, now, healthy);
    }

    method RecordFailure(key: string, kind: FailureKind, now: int, healthy: bool) returns (retry: int)
      modifies this, store
      ensures var t := Step(old(Snapshot()), RequestGuards.RecordFailure(key, kind), now, healthy, true);
        Snapshot() == t.guard && retry == t.reply.Retry()
    {
      var state;
      retry, state := Admit(key, now);
      if state.None? {
        return;
      }
      var counted, flood := CountFailure(key, kind, state.value, now);
      retry := Judge(key, counted, flood, now, healthy);
    }

    /** `granted` is whether the session could be created. */
    method CompleteLogin(key: string, granted: bool, now: int) returns (retry: int)
      modifies this
      ensures var t := Step(old(Snapshot()), RequestGuards.CompleteLogin(key, granted), now, true, true);
        Snapshot() == t.guard && retry == t.reply.Retry()
    {
      retry := RetryAfterLocked(key, now);
      if retry > 0 || !granted {
        return;
      }
      if key in states {
        states := states[key := states[key].(loginFailures := Window(None, 0))];
      }
    }
  }
}
