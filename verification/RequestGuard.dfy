/** The abuse guard of internal/handler/abuse.go with its persistent bans in internal/db/ip_block.go.
    Every entry point is given as a function of the guard before it. Moments are nanoseconds; token
    counts are real numbers, so the rounding of floating point is not part of the model. */
module RequestGuards {
  import opened Instants

  const SECOND: int := 1_000_000_000
  const MINUTE: int := 60_000_000_000
  const IP_BLOCK_DURATION: int := 86_400_000_000_000
  const REQUEST_BURST: real := 120.0
  const REQUEST_RATE_PER_SECOND: real := 6.0
  const LOGIN_ATTEMPT_LIMIT: nat := 10
  const LOGIN_ATTEMPT_WINDOW: int := 60_000_000_000
  const LOGIN_FAILURE_LIMIT: nat := 5
  const LOGIN_FAILURE_WINDOW: int := 900_000_000_000
  const PROBE_FAILURE_LIMIT: nat := 20
  const PROBE_FAILURE_WINDOW: int := 60_000_000_000
  const RATE_VIOLATION_LIMIT: nat := 3
  const RATE_VIOLATION_WINDOW: int := 60_000_000_000
  const ABUSE_STATE_TTL: int := 1_800_000_000_000
  const MAX_ABUSE_STATES: nat := 4096
  const MAX_BLOCKED_CLIENTS: nat := 8192
  const MAX_ACTIVE_IP_BLOCKS: nat := 8192

  /** A counting window; it has no start until its first event. */
  datatype Window = Window(startedAt: Option<int>, count: nat)

  datatype AbuseState = AbuseState(
    lastSeen: int, tokens: real, refilledAt: int,
    loginAttempts: Window, loginFailures: Window, probeFailures: Window, rateViolations: Window)

  datatype FailureKind = LoginFailure | RateFailure | ProbeFailure

  datatype Reply = Allowed | Banned(retry: int) | Full {
    /** The duration returned to the caller; zero lets the request through. */
    function Retry(): int {
      match this
      case Allowed => 0
      case Banned(retry) => retry
      case Full => MINUTE
    }
  }

  datatype PutResult = NoPut | Stored | InvalidBlock | CapacityReached | StorageDown

  /** `rows` is the ban table, which only a guard with a store writes. */
  datatype Guard = Guard(
    states: map<string, AbuseState>, blocks: map<string, int>, nextCleanup: int,
    hasStore: bool, rows: map<string, int>)

  datatype Turn = Turn(guard: Guard, reply: Reply, put: PutResult)

  // ---- windows and buckets

  function IncrementWindow(w: Window, length: int, now: int): Window {
    if w.startedAt.None? || now - w.startedAt.value >= length then Window(Some(now), 1)
    else w.(count := w.count + 1)
  }

  function Earned(from: int, now: int): real {
    (now - from) as real / SECOND as real * REQUEST_RATE_PER_SECOND
  }

  function Capped(tokens: real): real {
    if tokens < REQUEST_BURST then tokens else REQUEST_BURST
  }

  function Refilled(s: AbuseState, now: int): AbuseState {
    if now - s.refilledAt > 0 then s.(tokens := Capped(s.tokens + Earned(s.refilledAt, now)), refilledAt := now) else s
  }

  function Fresh(now: int): AbuseState {
    AbuseState(now, REQUEST_BURST, now, Window(None, 0), Window(None, 0), Window(None, 0), Window(None, 0))
  }

  // ---- the ban table

  predicate Blank(key: string) {
    forall i :: 0 <= i < |key| ==> key[i] in " \t\n\r"
  }

  function ActiveRows(rows: map<string, int>, now: int): map<string, int> {
    map key | key in rows && now < rows[key] :: rows[key]
  }

  /** Prunes expired rows, then adds or extends one; a refusal leaves the table as it was. */
  function PutBlock(
      rows: map<string, int>, key: string, until: int, now: int, healthy: bool): (map<string, int>, PutResult)
  {
    var active := ActiveRows(rows, now);
    if Blank(key) || until <= now then (rows, InvalidBlock)
    else if !healthy then (rows, StorageDown)
    else if key in active then (active[key := if active[key] < until then until else active[key]], Stored)
    else if |active| >= MAX_ACTIVE_IP_BLOCKS then (rows, CapacityReached)
    else (active[key := until], Stored)
  }

  // ---- the guard

  /** A guard that has just been started reads the bans that are still in force. */
  function NewGuard(hasStore: bool, rows: map<string, int>, now: int, zero: int): Guard {
    Guard(map[], if hasStore then ActiveRows(rows, now) else map[], zero, hasStore, rows)
  }

  function BanLeft(g: Guard, key: string, now: int): int {
    if key in g.blocks && now < g.blocks[key] then g.blocks[key] - now else 0
  }

  /** A ban that is over is dropped when its client is next looked at. */
  function Unbanned(g: Guard, key: string, now: int): Guard {
    if key in g.blocks && g.blocks[key] <= now then g.(blocks := g.blocks - {key}) else g
  }

  /** `forgetful` is how the program runs. With it off nothing is ever evicted and no client is ever
      turned away for lack of room: the guard the eviction is compared with. */
  function Cleaned(g: Guard, now: int, forgetful: bool): Guard {
    if now < g.nextCleanup || !forgetful then g
    else g.(
      states := map key | key in g.states && now - g.states[key].lastSeen < ABUSE_STATE_TTL :: g.states[key],
      blocks := map key | key in g.blocks && now < g.blocks[key] :: g.blocks[key],
      nextCleanup := now + MINUTE)
  }

  predicate NoRoom(g: Guard) {
    |g.states| >= MAX_ABUSE_STATES || |g.states| + |g.blocks| >= MAX_BLOCKED_CLIENTS
  }

  /** The counters of a client, created when it is new; nothing when there is no room for it. */
  function Seen(g: Guard, key: string, now: int, forgetful: bool): (Guard, Option<AbuseState>) {
    var c := Cleaned(g, now, forgetful);
    if key !in c.states && forgetful && NoRoom(c) then (c, None)
    else
      var s := (if key in c.states then c.states[key] else Fresh(now)).(lastSeen := now);
      (c.(states := c.states[key := s]), Some(s))
  }

  function Block(g: Guard, key: string, now: int, healthy: bool): Turn {
    var until := now + IP_BLOCK_DURATION;
    var (rows, put) := if g.hasStore then PutBlock(g.rows, key, until, now, healthy) else (g.rows, NoPut);
    Turn(g.(blocks := g.blocks[key := until], states := g.states - {key}, rows := rows), Banned(IP_BLOCK_DURATION), put)
  }

  datatype Call =
    | AllowRequest(key: string)
    | BeginLogin(key: string)
    | RecordFailure(key: string, kind: FailureKind)
    | CompleteLogin(key: string, granted: bool)

  /** How one call changes the counters of a client it has admitted, and whether it leads to a ban. */
  function Counted(call: Call, s: AbuseState, now: int): (AbuseState, bool) {
    match call
    case AllowRequest(_) =>
      var r := Refilled(s, now);
      if r.tokens < 1.0 then (r, true) else (r.(tokens := r.tokens - 1.0), false)
    case BeginLogin(_) =>
      var w := IncrementWindow(s.loginAttempts, LOGIN_ATTEMPT_WINDOW, now);
      (s.(loginAttempts := w), w.count > LOGIN_ATTEMPT_LIMIT)
    case RecordFailure(_, LoginFailure) =>
      var w := IncrementWindow(s.loginFailures, LOGIN_FAILURE_WINDOW, now);
      (s.(loginFailures := w), w.count >= LOGIN_FAILURE_LIMIT)
    case RecordFailure(_, RateFailure) =>
      var w := IncrementWindow(s.rateViolations, RATE_VIOLATION_WINDOW, now);
      (s.(rateViolations := w), w.count >= RATE_VIOLATION_LIMIT)
    case RecordFailure(_, ProbeFailure) =>
      var w := IncrementWindow(s.probeFailures, PROBE_FAILURE_WINDOW, now);
      (s.(probeFailures := w), w.count >= PROBE_FAILURE_LIMIT)
    case CompleteLogin(_, _) => (s, false)
  }

  /** Stores the new counters, and bans the client when they say so. */
  function Judged(g: Guard, key: string, counted: AbuseState, flood: bool, now: int, healthy: bool): Turn {
    var g' := g.(states := g.states[key := counted]);
    if flood then Block(g', key, now, healthy) else Turn(g', Allowed, NoPut)
  }

  /** A completed login forgets the failures that led up to it, nothing else. */
  function FailuresCleared(g: Guard, key: string): Guard {
    if key in g.states then g.(states := g.states[key := g.states[key].(loginFailures := Window(None, 0))]) else g
  }

  /** A counting call by a client that is not banned. */
  function Served(g: Guard, call: Call, now: int, healthy: bool, forgetful: bool): Turn {
    var (seen, s) := Seen(g, call.key, now, forgetful);
    if s.None? then Turn(seen, Full, NoPut)
    else Judged(seen, call.key, Counted(call, s.value, now).0, Counted(call, s.value, now).1, now, healthy)
  }

  /** One call at one moment. `healthy` says whether the ban table can be written at that moment. */
  function Step(g: Guard, call: Call, now: int, healthy: bool, forgetful: bool): Turn {
    var u := Unbanned(g, call.key, now);
    if BanLeft(g, call.key, now) > 0 then Turn(g, Banned(BanLeft(g, call.key, now)), NoPut)
    else if call.CompleteLogin? then Turn(if call.granted then FailuresCleared(u, call.key) else u, Allowed, NoPut)
    else Served(u, call, now, healthy, forgetful)
  }
}
