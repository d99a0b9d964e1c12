/**
 Token rotation between the relay and its executors, as a state machine over both machines.

 The relay mints a provisional token, keeps it pending under a TTL and promotes it when the executor
 reconnects with it. The executor stores the new token beside the one it displaces and drops the old
 one after a confirmed reconnect. Every step may be interleaved with every other: replies get lost,
 either side restarts, timers fire late, the database write of a promotion fails, the hub crashes
 between its two env-file writes.
 */
module RotationProtocol {
  import opened Wrappers

  type ExecutorId = nat
  type TokenId = nat

  const ROTATION_TTL_MS := 300_000
  const ROTATE_MIN_INTERVAL_MS := 60_000
  const REVOKED_TOKEN_RETENTION_MS := 3_600_000

  // ---------------------------------------------------------------------------
  // The relay: database rows and the in-memory maps
  // ---------------------------------------------------------------------------

  datatype Token = Token(revokedAt: Option<int>, expiresAt: Option<int>)

  datatype PendingRotation = PendingRotation(executor: ExecutorId, oldToken: TokenId)

  datatype RelayState = RelayState(
    tokens: map<TokenId, Token>,
    rows: map<ExecutorId, TokenId>,
    pending: map<TokenId, PendingRotation>,
    timers: set<TokenId>,
    lastRotateAt: map<ExecutorId, int>)

  predicate Usable(r: RelayState, t: TokenId, now: int) {
    && t in r.tokens
    && r.tokens[t].revokedAt.None?
    && (r.tokens[t].expiresAt.Some? ==> r.tokens[t].expiresAt.value >= now)
  }

  predicate Live(r: RelayState, t: TokenId) {
    t in r.tokens && r.tokens[t].revokedAt.None?
  }

  predicate Referenced(r: RelayState, t: TokenId) {
    exists e :: e in r.rows && r.rows[e] == t
  }

  function SetRevoked(tokens: map<TokenId, Token>, t: TokenId, now: int): map<TokenId, Token> {
    if t in tokens then tokens[t := tokens[t].(revokedAt := Some(now))] else tokens
  }

  function PendingOf(r: RelayState, e: ExecutorId): set<TokenId> {
    set t | t in r.pending && r.pending[t].executor == e
  }

  function RevokeAll(tokens: map<TokenId, Token>, ids: set<TokenId>, now: int): map<TokenId, Token> {
    map t | t in tokens ::
      if t in ids && tokens[t].revokedAt.None? then tokens[t].(revokedAt := Some(now)) else tokens[t]
  }

  function CancelPending(r: RelayState, e: ExecutorId, now: int): RelayState {
    var ids := PendingOf(r, e);
    r.(pending := r.pending - ids, timers := r.timers - ids, tokens := RevokeAll(r.tokens, ids, now))
  }

  predicate RateLimited(r: RelayState, e: ExecutorId, now: int) {
    e in r.lastRotateAt && now - r.lastRotateAt[e] < ROTATE_MIN_INTERVAL_MS
  }

  /** Handles a `rotate_token` that arrived on a connection authenticated with `connToken`. */
  function Mint(r: RelayState, e: ExecutorId, connToken: TokenId, minted: TokenId, now: int): RelayState {
    if RateLimited(r, e, now) then r
    else
      var c := CancelPending(r.(lastRotateAt := r.lastRotateAt[e := now]), e, now);
      c.(tokens := c.tokens[minted := Token(None, Some(now + ROTATION_TTL_MS))],
         pending := c.pending[minted := PendingRotation(e, connToken)],
         timers := c.timers + {minted})
  }

  /** The TTL timer of a pending rotation fires; the row update may fail. */
  function Expire(r: RelayState, t: TokenId, dbOk: bool, now: int): RelayState {
    r.(pending := r.pending - {t},
       timers := r.timers - {t},
       tokens := if dbOk then SetRevoked(r.tokens, t, now) else r.tokens)
  }

  /** Whether the relay resolves token `t` to executor `e`: by its row, else by its pending entry. */
  predicate BelongsTo(r: RelayState, t: TokenId, e: ExecutorId) {
    && e in r.rows
    && (r.rows[e] == t || (!Referenced(r, t) && t in r.pending && r.pending[t].executor == e))
  }

  /** Whether accepting `t` completes a rotation, rather than being a plain reconnect. */
  predicate Completes(r: RelayState, t: TokenId) {
    !Referenced(r, t) && t in r.pending
  }

  /** Authentication, promotion of a pending token, and registration of the connection. */
  function Admit(r: RelayState, t: TokenId, e: ExecutorId, dbOk: bool, now: int): RelayState {
    if !Completes(r, t) then r
    else
      var c := r.(pending := r.pending - {t}, timers := r.timers - {t});
      if !dbOk then c
      else
        var tokens := SetRevoked(c.tokens, r.pending[t].oldToken, now);
        c.(rows := c.rows[e := t],
           tokens := if t in tokens then tokens[t := tokens[t].(expiresAt := None)] else tokens)
  }

  /** A registration of executor `e`, new or replacing its token, with its cancelPendingRotation. */
  function Register(r: RelayState, e: ExecutorId, minted: TokenId, now: int): RelayState {
    var revoked := if e in r.rows then SetRevoked(r.tokens, r.rows[e], now) else r.tokens;
    CancelPending(r.(tokens := revoked[minted := Token(None, None)], rows := r.rows[e := minted]), e, now)
  }

  /** An explicit revocation of executor `e`'s token, with its cancelPendingRotation. */
  function RevokeToken(r: RelayState, e: ExecutorId, now: int): RelayState {
    if e !in r.rows || !Live(r, r.rows[e]) then r
    else CancelPending(r.(tokens := SetRevoked(r.tokens, r.rows[e], now)), e, now)
  }

  /** The periodic prune: expired unreferenced tokens are revoked, long-revoked unreferenced ones deleted. */
  function Prune(r: RelayState, now: int): RelayState {
    var orphans := set t | t in r.tokens && !Referenced(r, t) &&
                           r.tokens[t].expiresAt.Some? && r.tokens[t].expiresAt.value < now;
    var tokens := RevokeAll(r.tokens, orphans, now);
    var dead := set t | t in tokens && !Referenced(r, t) && tokens[t].revokedAt.Some? &&
                        tokens[t].revokedAt.value < now - REVOKED_TOKEN_RETENTION_MS;
    r.(tokens := tokens - dead)
  }

  /** A restart loses the in-memory maps and timers; the rows stay. */
  function Restart(r: RelayState): RelayState {
    r.(pending := map[], timers := {}, lastRotateAt := map[])
  }

  // ---------------------------------------------------------------------------
  // The executor: a node (its token is read from disk) or a hub (held in memory)
  // ---------------------------------------------------------------------------

  datatype Kind = Node | Hub

  datatype Disk = Disk(token: TokenId, previous: Option<TokenId>)

  datatype Executor = Executor(kind: Kind, disk: Disk, inMemory: TokenId, rotating: bool, awaiting: bool)

  /** How storing a granted token ends: `writes` file writes done, then done, an error or a crash.
      A node writes one file holding both tokens; a hub makes two writes, the displaced token first. */
  datatype StoreOutcome = Stored | Failed(writes: nat) | Crashed(writes: nat)

  function Presented(x: Executor): TokenId {
    if x.kind.Node? then x.disk.token else x.inMemory
  }

  function WritesNeeded(x: Executor): nat { if x.kind.Node? then 1 else 2 }

  /** The disk after the first `n` writes of storing `t`. */
  function DiskAfter(x: Executor, t: TokenId, n: nat): Disk {
    if n == 0 then x.disk
    else if x.kind.Node? then Disk(t, Some(x.disk.token))
    else if n == 1 then Disk(x.disk.token, Some(x.inMemory))
    else Disk(t, Some(x.inMemory))
  }

  function StopRotation(x: Executor): Executor { x.(rotating := false, awaiting := false) }

  function Reboot(x: Executor): Executor { StopRotation(x).(inMemory := x.disk.token) }

  /** Whether a `token_rotated` is acted on: only the answer to our own request, and only once. */
  predicate Expects(x: Executor) { x.rotating && !x.awaiting }

  function Store(x: Executor, t: TokenId, outcome: StoreOutcome): Executor {
    match outcome
    case Stored => x.(disk := DiskAfter(x, t, WritesNeeded(x)), inMemory := t, awaiting := true)
    case Failed(n) => StopRotation(x.(disk := DiskAfter(x, t, n)))
    case Crashed(n) => Reboot(x.(disk := DiskAfter(x, t, n)))
  }

  /** A failed store made fewer writes than it needs; a crash may also follow the last one. */
  predicate Possible(x: Executor, outcome: StoreOutcome) {
    match outcome
    case Stored => true
    case Failed(n) => n < WritesNeeded(x)
    case Crashed(n) => n <= WritesNeeded(x)
  }

  /** The connection opened: a rotation awaiting confirmation is confirmed, and the displaced token
      dropped (a hub that cannot clear it only warns). */
  function Opened(x: Executor, cleared: bool): Executor {
    if !x.awaiting then x
    else x.(awaiting := false, rotating := false,
            disk := if cleared then x.disk.(previous := None) else x.disk)
  }

  // ---------------------------------------------------------------------------
  // Both machines and the sockets between them
  // ---------------------------------------------------------------------------

  datatype Reply = Granted(token: TokenId) | Refused

  datatype Socket = Socket(token: TokenId, requests: nat, replies: seq<Reply>)

  /** `owner` records for which executor each token was ever minted; `revoked` and `touched` record
      which executors an administrator revoked (and did not register again) or acted on at all. */
  datatype System = System(
    relay: RelayState,
    executors: map<ExecutorId, Executor>,
    sockets: map<ExecutorId, Socket>,
    now: int,
    owner: map<TokenId, ExecutorId>,
    revoked: set<ExecutorId>,
    touched: set<ExecutorId>)

  datatype Event =
    | Tick(ms: nat)
    | AskRotation(e: ExecutorId)
    | HandleRotate(e: ExecutorId, minted: TokenId)
    | DeliverReply(e: ExecutorId, outcome: StoreOutcome)
    | LoseRequest(e: ExecutorId)
    | LoseReply(e: ExecutorId)
    | RotationTimesOut(e: ExecutorId)
    | SocketDrops(e: ExecutorId)
    | Crash(e: ExecutorId)
    | Connect(e: ExecutorId, resolved: ExecutorId, dbOk: bool, cleared: bool)
    | TtlFires(t: TokenId, dbOk: bool)
    | RelayRestarts
    | RelayPrunes
    | Registers(e: ExecutorId, minted: TokenId)
    | Revokes(e: ExecutorId)

  predicate Enabled(s: System, ev: Event) {
    match ev
    case Tick(_) => true
    case AskRotation(e) => e in s.executors
    case HandleRotate(e, minted) => e in s.sockets && s.sockets[e].requests > 0 && minted !in s.owner
    case DeliverReply(e, outcome) =>
      e in s.sockets && e in s.executors && s.sockets[e].replies != [] && Possible(s.executors[e], outcome)
    case LoseRequest(e) => e in s.sockets && s.sockets[e].requests > 0
    case LoseReply(e) => e in s.sockets && s.sockets[e].replies != []
    case RotationTimesOut(e) => e in s.executors && s.executors[e].rotating
    case SocketDrops(e) => e in s.sockets
    case Crash(e) => e in s.executors
    case Connect(e, resolved, _, _) =>
      && e in s.executors && e !in s.sockets
      && Usable(s.relay, Presented(s.executors[e]), s.now)
      && BelongsTo(s.relay, Presented(s.executors[e]), resolved)
    case TtlFires(t, _) => t in s.relay.timers
    case RelayRestarts => true
    case RelayPrunes => true
    case Registers(_, minted) => minted !in s.owner
    case Revokes(e) => e in s.relay.rows
  }

  function Close(s: System, e: ExecutorId): System { s.(sockets := s.sockets - {e}) }

  function Deliver(s: System, e: ExecutorId, outcome: StoreOutcome): System
    requires e in s.sockets && e in s.executors && s.sockets[e].replies != []
  {
    var x, k := s.executors[e], s.sockets[e];
    var rest := s.(sockets := s.sockets[e := k.(replies := k.replies[1..])]);
    match k.replies[0]
    case Refused => rest.(executors := s.executors[e := StopRotation(x)])
    case Granted(t) =>
      if !Expects(x) then rest
      else
        var stored := rest.(executors := s.executors[e := Store(x, t, outcome)]);
        if outcome.Failed? then stored else Close(stored, e)
  }

  function Answer(s: System, e: ExecutorId, minted: TokenId): System
    requires e in s.sockets && s.sockets[e].requests > 0
  {
    var k := s.sockets[e];
    var limited := RateLimited(s.relay, e, s.now);
    var reply := if limited then Refused else Granted(minted);
    s.(relay := Mint(s.relay, e, k.token, minted, s.now),
       owner := if limited then s.owner else s.owner[minted := e],
       sockets := s.sockets[e := Socket(k.token, k.requests - 1, k.replies + [reply])])
  }

  function Open(s: System, e: ExecutorId, resolved: ExecutorId, dbOk: bool, cleared: bool): System
    requires e in s.executors
  {
    var t := Presented(s.executors[e]);
    var admitted := s.(relay := Admit(s.relay, t, resolved, dbOk, s.now));
    if Completes(s.relay, t) && !dbOk then admitted
    else admitted.(sockets := s.sockets[resolved := Socket(t, 0, [])],
                   executors := s.executors[e := Opened(s.executors[e], cleared)])
  }

  function Next(s: System, ev: Event): System
    requires Enabled(s, ev)
  {
    match ev
    case Tick(ms) => s.(now := s.now + ms)
    case AskRotation(e) =>
      var x := s.executors[e];
      if x.rotating then s
      else
        var asked := s.(executors := s.executors[e := x.(rotating := true)]);
        if e !in s.sockets then asked
        else asked.(sockets := s.sockets[e := s.sockets[e].(requests := s.sockets[e].requests + 1)])
    case HandleRotate(e, minted) => Answer(s, e, minted)
    case DeliverReply(e, outcome) => Deliver(s, e, outcome)
    case LoseRequest(e) => s.(sockets := s.sockets[e := s.sockets[e].(requests := s.sockets[e].requests - 1)])
    case LoseReply(e) => s.(sockets := s.sockets[e := s.sockets[e].(replies := s.sockets[e].replies[1..])])
    case RotationTimesOut(e) => s.(executors := s.executors[e := StopRotation(s.executors[e])])
    case SocketDrops(e) => Close(s, e)
    case Crash(e) => Close(s.(executors := s.executors[e := Reboot(s.executors[e])]), e)
    case Connect(e, resolved, dbOk, cleared) => Open(s, e, resolved, dbOk, cleared)
    case TtlFires(t, dbOk) => s.(relay := Expire(s.relay, t, dbOk, s.now))
    case RelayRestarts => s.(relay := Restart(s.relay), sockets := map[])
    case RelayPrunes => s.(relay := Prune(s.relay, s.now))
    case Registers(e, minted) =>
      Close(s.(relay := Register(s.relay, e, minted, s.now), owner := s.owner[minted := e],
               revoked := s.revoked - {e}, touched := s.touched + {e}), e)
    case Revokes(e) =>
      Close(s.(relay := RevokeToken(s.relay, e, s.now),
               revoked := s.revoked + {e}, touched := s.touched + {e}), e)
  }

  /** A start: each executor registered with a token of its own, stored on its disk. */
  predicate Initial(s: System) {
    && s.relay.rows.Keys == s.executors.Keys
    && s.relay.pending == map[] && s.relay.timers == {} && s.sockets == map[]
    && s.revoked == {} && s.touched == {}
    && s.owner.Keys == s.relay.tokens.Keys
    && (forall t :: t in s.relay.tokens ==> s.relay.tokens[t] == Token(None, None) && Referenced(s.relay, t))
    && (forall e :: e in s.executors ==>
          && s.relay.rows[e] in s.relay.tokens && s.owner[s.relay.rows[e]] == e
          && s.executors[e].disk == Disk(s.relay.rows[e], None)
          && s.executors[e].inMemory == s.relay.rows[e]
          && !s.executors[e].rotating && !s.executors[e].awaiting)
  }

  /** `states` is a run: each state follows from the one before it by an enabled event. */
  predicate IsRun(states: seq<System>, events: seq<Event>) {
    && |states| == |events| + 1
    && Initial(states[0])
    && forall i :: 0 <= i < |events| ==>
         Enabled(states[i], events[i]) && states[i + 1] == Next(states[i], events[i])
  }
}
