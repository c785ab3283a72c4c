/** The fixed-window limiter of internal/handler/security.go and its bound on admitted requests. */
module RateLimiters {
  import Collections

  datatype Entry = Entry(startedAt: int, count: nat)

  datatype Verdict = Verdict(allowed: bool, wait: int)

  datatype Limiter = Limiter(limit: int, window: int, maxKeys: nat, byClient: map<string, Entry>) {
    /** A limiter without a limit or a window lets everything through. */
    predicate Disabled() {
      limit <= 0 || window <= 0
    }
  }

  predicate Over(e: Entry, window: int, now: int) {
    now - e.startedAt >= window || now < e.startedAt
  }

  function Pruned(l: Limiter, now: int): Limiter {
    l.(byClient := map key | key in l.byClient && !Over(l.byClient[key], l.window, now) :: l.byClient[key])
  }

  function Allow(l: Limiter, key: string, now: int): (Limiter, Verdict) {
    if l.Disabled() then (l, Verdict(true, 0))
    else if key in l.byClient && !Over(l.byClient[key], l.window, now) then
      var e := l.byClient[key];
      if e.count >= l.limit then (l, Verdict(false, e.startedAt + l.window - now))
      else (l.(byClient := l.byClient[key := e.(count := e.count + 1)]), Verdict(true, 0))
    else
      var p := if key !in l.byClient && |l.byClient| >= l.maxKeys then Pruned(l, now) else l;
      if key !in l.byClient && |p.byClient| >= l.maxKeys then (p, Verdict(false, l.window))
      else (p.(byClient := p.byClient[key := Entry(now, 1)]), Verdict(true, 0))
  }

  class FixedWindowLimiter {
    const limit: int
    const window: int
    const maxKeys: nat
    var byClient: map<string, Entry>

    ghost function Snapshot(): Limiter
      reads this
    {
      Limiter(limit, window, maxKeys, byClient)
    }

    constructor (limit: int, window: int, maxKeys: nat)
      ensures Snapshot() == Limiter(limit, window, maxKeys, map[])
    {
      this.limit, this.window, this.maxKeys := limit, window, maxKeys;
      byClient := map[];
    }

    method AllowRequest(clientKey: string, now: int) returns (verdict: Verdict)
      modifies this
      ensures (Snapshot(), verdict) == Allow(old(Snapshot()), clientKey, now)
    {
      if limit <= 0 || window <= 0 {
        return Verdict(true, 0);
      }
      var exists_ := clientKey in byClient;
      if !exists_ || now - byClient[clientKey].startedAt >= window || now < byClient[clientKey].startedAt {
        if !exists_ && |byClient| >= maxKeys {
          Prune(now);
        }
        if !exists_ && |byClient| >= maxKeys {
          return Verdict(false, window);
        }
        byClient := byClient[clientKey := Entry(now, 1)];
        return Verdict(true, 0);
      }
      var state := byClient[clientKey];
      if state.count >= limit {
        return Verdict(false, state.startedAt + window - now);
      }
      byClient := byClient[clientKey := state.(count := state.count + 1)];
      return Verdict(true, 0);
    }

    method Prune(now: int)
      modifies this
      ensures Snapshot() == Pruned(old(Snapshot()), now)
    {
      ghost var before := byClient;
      var clients := byClient.Keys;
      while clients != {}
        invariant clients <= before.Keys
        invariant byClient == map key |
          key in before && (key in clients || !Over(before[key], window, now)) :: before[key]
        decreases clients
      {
        ghost var member := Collections.SomeMember(clients);
        var client :| client in clients;
        clients := clients - {client};
        if now - byClient[client].startedAt >= window || now < byClient[client].startedAt {
          byClient := byClient - {client};
        }
      }
    }
  }

  // ---- runs: requests of any clients, interleaved with the periodic cleanup

  datatype Event = Request(key: string, now: int) | Cleanup(now: int)

  function After(l: Limiter, e: Event): Limiter {
    match e
    case Request(key, now) => Allow(l, key, now).0
    case Cleanup(now) => Pruned(l, now)
  }

  predicate Admits(l: Limiter, e: Event, client: string) {
    e.Request? && e.key == client && Allow(l, client, e.now).1.allowed
  }

  function Admitted(l: Limiter, events: seq<Event>, client: string): nat
    decreases |events|
  {
    if events == [] then 0
    else (if Admits(l, events[0], client) then 1 else 0) + Admitted(After(l, events[0]), events[1..], client)
  }

  ghost predicate Chronological(events: seq<Event>, clock: int) {
    && (forall i :: 0 <= i < |events| ==> clock <= events[i].now)
    && (forall i, j :: 0 <= i < j < |events| ==> events[i].now <= events[j].now)
  }

  ghost predicate Valid(l: Limiter, clock: int) {
    !l.Disabled() && forall key :: key in l.byClient ==>
      l.byClient[key].startedAt <= clock && 1 <= l.byClient[key].count <= l.limit
  }

  lemma StepValid(l: Limiter, e: Event, clock: int)
    requires Valid(l, clock) && clock <= e.now
    ensures Valid(After(l, e), e.now) && After(l, e).limit == l.limit && After(l, e).window == l.window
  {
  }

  /** Another client's request, or a cleanup, can only take away a window that is over. */
  lemma OthersKeepWindow(l: Limiter, e: Event, client: string)
    requires !l.Disabled() && !(e.Request? && e.key == client)
    ensures client in After(l, e).byClient ==>
      client in l.byClient && After(l, e).byClient[client] == l.byClient[client]
    ensures client in l.byClient && !Over(l.byClient[client], l.window, e.now) ==> client in After(l, e).byClient
  {
  }

  lemma OwnRequest(l: Limiter, now: int, client: string)
    requires !l.Disabled()
    ensures var (l', v) := Allow(l, client, now);
      if client in l.byClient && !Over(l.byClient[client], l.window, now) then
        client in l'.byClient && l'.byClient[client].startedAt == l.byClient[client].startedAt
        && l'.byClient[client].count == l.byClient[client].count + (if v.allowed then 1 else 0)
      else if v.allowed then client in l'.byClient && l'.byClient[client] == Entry(now, 1)
      else client !in l'.byClient
  {
  }

  /** Inside a window that has started, at most what is left of the limit gets through. */
  lemma {:induction false} WindowBounded(l: Limiter, events: seq<Event>, client: string, clock: int)
    requires Valid(l, clock) && Chronological(events, clock) && client in l.byClient
    requires forall i :: 0 <= i < |events| ==> events[i].now < l.byClient[client].startedAt + l.window
    ensures Admitted(l, events, client) <= l.limit - l.byClient[client].count
    decreases |events|
  {
    if events != [] {
      var e := events[0];
      StepValid(l, e, clock);
      if e.Request? && e.key == client {
        OwnRequest(l, e.now, client);
      } else {
        OthersKeepWindow(l, e, client);
      }
      WindowBounded(After(l, e), events[1..], client, e.now);
    }
  }

  /** How far a stretch starting at `start` has got after `admitted` requests of one client: none yet,
      all in one window, one window used up and forgotten, or two windows. */
  ghost predicate Progress(l: Limiter, client: string, start: int, clock: int, admitted: nat) {
    || admitted == 0
    || (client in l.byClient && admitted <= l.byClient[client].count && start < l.byClient[client].startedAt + l.window)
    || (client !in l.byClient && admitted <= l.limit && start < clock)
    || (client in l.byClient && admitted <= l.limit + l.byClient[client].count && start < l.byClient[client].startedAt)
  }

  lemma StepProgress(l: Limiter, e: Event, client: string, start: int, clock: int, admitted: nat)
    requires Valid(l, clock) && start <= clock <= e.now <= start + l.window
    requires Progress(l, client, start, clock, admitted)
    ensures Progress(After(l, e), client, start, e.now, admitted + if Admits(l, e, client) then 1 else 0)
  {
    if e.Request? && e.key == client {
      OwnRequest(l, e.now, client);
    } else {
      OthersKeepWindow(l, e, client);
    }
  }

  lemma {:induction false} ProgressBounded(
    l: Limiter, events: seq<Event>, client: string, start: int, clock: int, admitted: nat)
    requires Valid(l, clock) && Chronological(events, clock) && start <= clock
    requires forall i :: 0 <= i < |events| ==> events[i].now <= start + l.window
    requires Progress(l, client, start, clock, admitted)
    ensures admitted + Admitted(l, events, client) <= 2 * l.limit
    decreases |events|
  {
    if events != [] {
      var e := events[0];
      StepProgress(l, e, client, start, clock, admitted);
      StepValid(l, e, clock);
      ProgressBounded(After(l, e), events[1..], client, start, e.now, admitted + if Admits(l, e, client) then 1 else 0);
    }
  }

  /** In any interval as long as one window, at most twice the limit gets through, despite pruning. */
  lemma TwiceLimitPerInterval(l: Limiter, events: seq<Event>, client: string, start: int)
    requires Valid(l, start) && Chronological(events, start)
    requires forall i :: 0 <= i < |events| ==> events[i].now <= start + l.window
    ensures Admitted(l, events, client) <= 2 * l.limit
  {
    ProgressBounded(l, events, client, start, start, 0);
  }
}
