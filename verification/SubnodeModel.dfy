/**
 The hub's pool of worker processes, as a state machine: per user, workers bound to one OS identity,
 a lock that orders the decisions about them, a bounded queue, and the timers of both. Each event is a
 stretch of the pool's code between two awaits.
 */
module SubnodeModel {
  import opened Wrappers

  type RequestId = nat
  type WorkerId = nat
  type NodeId = nat

  datatype Identity = Identity(user: string, uid: nat, gid: nat)

  datatype Tier = Warm | Burst

  /** A worker's uid and gid are fixed when it is spawned. `pending` lists what it was sent, in order. */
  datatype Worker = Worker(
    node: NodeId, uid: nat, gid: nat, tier: Tier, ready: bool, removed: bool, idleTimer: bool,
    pending: seq<RequestId>)

  datatype Spawn = Spawn(request: RequestId, worker: WorkerId)

  /** One user's pool: its workers, its queue, the requests waiting for its lock (the first runs next),
      and the spawn the lock is held for. `arrivals` and `shifted` record the order of the queue. */
  datatype Subnode = Subnode(
    user: string, workers: seq<WorkerId>, queue: seq<RequestId>, waiting: seq<RequestId>,
    spawning: Option<Spawn>, arrivals: nat, shifted: seq<nat>)

  datatype QueueEntry = QueueEntry(deadline: int, arrival: nat)

  datatype Outcome =
    | Responded | UidBlocked | GidBlocked | SpawnFailed | TimedOut | WorkerError | SubnodeLimit

  /** Where a request is. */
  datatype Place =
    | Checking                       // its group check is running
    | Waiting(node: NodeId)          // waiting for the lock
    | Spawning(node: NodeId)         // the lock is held while a worker starts for it
    | Queued(node: NodeId)
    | InHand                         // being handled by the current stretch of code
    | Draining(worker: WorkerId)     // off the queue, its group check running before it is sent
    | InFlight(worker: WorkerId)
    | Settled

  /** A request handed to a worker, and whether the worker's channel took it. */
  datatype Send = Send(request: RequestId, worker: WorkerId, accepted: bool)

  /** What concerns single requests: who asked, timers, settlements. `settled` logs every settlement,
      `sent` every send, and `place` each request's moves. */
  datatype Ledger = Ledger(
    identities: map<RequestId, Identity>,
    entries: map<RequestId, QueueEntry>,
    checking: set<RequestId>,
    inHand: set<RequestId>,
    draining: map<RequestId, WorkerId>,
    queueTimers: set<RequestId>,
    rpcTimers: map<RequestId, WorkerId>,
    outcomes: map<RequestId, Outcome>,
    settled: seq<RequestId>,
    sent: seq<Send>,
    place: map<RequestId, Place>)

  datatype Config = Config(min: nat, max: nat, maxSubnodes: nat, queueTimeoutMs: int)

  datatype Pool = Pool(
    cfg: Config,
    subnodes: map<string, NodeId>,
    nodes: seq<Subnode>,
    workers: map<WorkerId, Worker>,
    ledger: Ledger,
    shuttingDown: bool)

  predicate RunsAs(w: Worker, id: Identity) { w.uid == id.uid && w.gid == id.gid }

  function SetOf(rs: seq<RequestId>): set<RequestId> { set r | r in rs }

  function Each<V>(rs: seq<RequestId>, v: V): (m: map<RequestId, V>)
    ensures forall r :: r in m <==> r in rs
    ensures forall r :: r in m ==> m[r] == v
  {
    if rs == [] then map[] else Each(Init(rs), v)[Last(rs) := v]
  }

  function Without(s: seq<nat>, x: nat): (r: seq<nat>)
    ensures |r| <= |s|
  {
    if s == [] then [] else if s[0] == x then s[1..] else [s[0]] + Without(s[1..], x)
  }

  // ---------------------------------------------------------------------------
  // Single requests
  // ---------------------------------------------------------------------------

  /** Settles a request in hand. */
  function Settle(l: Ledger, r: RequestId, o: Outcome): Ledger {
    l.(inHand := l.inHand - {r}, settled := l.settled + [r], outcomes := l.outcomes[r := o],
       place := l.place[r := Settled])
  }

  /** Settles several requests alike, in order. */
  function RejectAll(l: Ledger, rs: seq<RequestId>, o: Outcome): Ledger {
    l.(settled := l.settled + rs,
       outcomes := l.outcomes + Each(rs, o),
       place := l.place + Each(rs, Settled))
  }

  function RejectPending(l: Ledger, rs: seq<RequestId>): Ledger {
    RejectAll(l.(rpcTimers := l.rpcTimers - SetOf(rs)), rs, WorkerError)
  }

  function RejectQueue(l: Ledger, rs: seq<RequestId>): Ledger {
    RejectAll(l.(queueTimers := l.queueTimers - SetOf(rs)), rs, WorkerError)
  }

  /** Takes a request in hand from wherever it was, with its timers cleared. */
  function Grab(l: Ledger, r: RequestId): Ledger {
    l.(checking := l.checking - {r}, draining := l.draining - {r}, queueTimers := l.queueTimers - {r},
       rpcTimers := l.rpcTimers - {r}, inHand := l.inHand + {r}, place := l.place[r := InHand])
  }

  function Take(p: Pool, r: RequestId): Pool { p.(ledger := Grab(p.ledger, r)) }

  /** Puts a request in hand somewhere that needs no timer. */
  function Put(l: Ledger, r: RequestId, pl: Place): Ledger {
    l.(inHand := l.inHand - {r}, place := l.place[r := pl])
  }

  // ---------------------------------------------------------------------------
  // Workers
  // ---------------------------------------------------------------------------

  predicate Known(p: Pool, w: WorkerId) { w in p.workers && p.workers[w].node < |p.nodes| }

  /** Takes worker `w` off its subnode and rejects what it was sent. */
  function Unlist(p: Pool, w: WorkerId): Pool
    requires Known(p, w)
  {
    var k := p.workers[w];
    var s := p.nodes[k.node];
    p.(nodes := p.nodes[k.node := s.(workers := Without(s.workers, w))],
       workers := p.workers[w := k.(removed := true, idleTimer := false)],
       ledger := RejectPending(p.ledger, k.pending))
  }

  /** A subnode left without workers rejects its queue and leaves the pool. */
  function CloseIfEmpty(p: Pool, n: NodeId): Pool
    requires n < |p.nodes|
  {
    var s := p.nodes[n];
    if s.workers != [] then p
    else
      p.(nodes := p.nodes[n := s.(queue := [])],
         ledger := RejectQueue(p.ledger, s.queue),
         subnodes := if s.user in p.subnodes && p.subnodes[s.user] == n then p.subnodes - {s.user} else p.subnodes)
  }

  /** Removing a worker that was removed before does nothing. */
  function RemoveWorker(p: Pool, w: WorkerId): Pool {
    if !Known(p, w) || p.workers[w].removed then p
    else CloseIfEmpty(Unlist(p, w), p.workers[w].node)
  }

  function RemoveAll(p: Pool, ws: seq<WorkerId>): Pool
    decreases |ws|
  {
    if ws == [] then p else RemoveAll(RemoveWorker(p, ws[0]), ws[1..])
  }

  /** Removes every worker of the user's current subnode. */
  function Evict(p: Pool, user: string): Pool {
    if user !in p.subnodes || p.subnodes[user] >= |p.nodes| then p
    else RemoveAll(p, p.nodes[p.subnodes[user]].workers)
  }

  /** Sends a request in hand to a worker; a removed worker's channel is closed. */
  function SendRequest(p: Pool, w: WorkerId, r: RequestId, accepted: bool): Pool
    requires w in p.workers
  {
    var k := p.workers[w];
    var l := p.ledger.(sent := p.ledger.sent + [Send(r, w, !k.removed && accepted)]);
    if k.removed || !accepted then
      p.(ledger := Settle(l, r, WorkerError))
    else
      p.(workers := p.workers[w := k.(pending := k.pending + [r])],
         ledger := Put(l.(rpcTimers := l.rpcTimers[r := w]), r, InFlight(w)))
  }

  /** Whether the last send to worker `w` was refused. */
  predicate Stalled(sent: seq<Send>, w: WorkerId) {
    sent != [] && if Last(sent).worker == w then !Last(sent).accepted else Stalled(Init(sent), w)
  }

  function ResetIdleTimer(p: Pool, w: WorkerId): Pool
    requires w in p.workers
  {
    p.(workers := p.workers[w := p.workers[w].(idleTimer := p.workers[w].pending == [])])
  }

  /** Takes in hand a request that worker `w` was sent. */
  function TakeBack(p: Pool, w: WorkerId, r: RequestId): Pool
    requires w in p.workers
  {
    var k := p.workers[w];
    p.(workers := p.workers[w := k.(pending := Without(k.pending, r))], ledger := Grab(p.ledger, r))
  }

  // ---------------------------------------------------------------------------
  // Draining the queue
  // ---------------------------------------------------------------------------

  /** Takes the head of a subnode's queue in hand. */
  function Shift(p: Pool, n: NodeId): Pool
    requires n < |p.nodes| && p.nodes[n].queue != [] && p.nodes[n].queue[0] in p.ledger.entries
  {
    var s := p.nodes[n];
    var r := s.queue[0];
    p.(nodes := p.nodes[n := s.(queue := s.queue[1..], shifted := s.shifted + [p.ledger.entries[r].arrival])],
       ledger := Grab(p.ledger, r))
  }

  predicate CanShift(p: Pool, w: WorkerId) {
    && Known(p, w) && p.nodes[p.workers[w].node].queue != []
    && p.nodes[p.workers[w].node].queue[0] in p.ledger.entries
    && p.nodes[p.workers[w].node].queue[0] in p.ledger.identities
  }

  /** One turn of the drain: whether the loop goes on, and the pool after it. */
  datatype Turn = Continue(pool: Pool) | Stop(pool: Pool)

  function DrainTurn(p: Pool, w: WorkerId, now: int, uidBlocked: nat -> bool): Turn
    requires CanShift(p, w)
  {
    var n := p.workers[w].node;
    var r := p.nodes[n].queue[0];
    var id, taken := p.ledger.identities[r], Shift(p, n);
    if now > p.ledger.entries[r].deadline then
      Continue(taken.(ledger := Settle(taken.ledger, r, TimedOut)))
    else if !RunsAs(p.workers[w], id) then
      var q := RemoveWorker(taken, w);
      Stop(q.(ledger := Settle(q.ledger, r, WorkerError)))
    else if uidBlocked(id.uid) then
      var q := Evict(taken, id.user);
      Continue(q.(ledger := Settle(q.ledger, r, UidBlocked)))
    else
      Stop(Suspend(taken, r, w))
  }

  /** The drain waits for a group check on a request in hand. */
  function Suspend(p: Pool, r: RequestId, w: WorkerId): Pool {
    var l := Put(p.ledger, r, Draining(w));
    p.(ledger := l.(draining := l.draining[r := w]))
  }

  function QueueLength(p: Pool, w: WorkerId): nat {
    if Known(p, w) then |p.nodes[p.workers[w].node].queue| else 0
  }

  /** Workers keep their subnode and their credentials, and queues only get shorter. */
  predicate Shrinks(p: Pool, q: Pool) {
    && |q.nodes| == |p.nodes| && q.workers.Keys == p.workers.Keys
    && (forall w :: w in p.workers ==>
          q.workers[w].node == p.workers[w].node && q.workers[w].uid == p.workers[w].uid && q.workers[w].gid == p.workers[w].gid)
    && (forall n :: 0 <= n < |p.nodes| ==> |q.nodes[n].queue| <= |p.nodes[n].queue|)
  }

  lemma RemoveWorkerShrinks(p: Pool, w: WorkerId)
    ensures Shrinks(p, RemoveWorker(p, w))
  {
  }

  lemma {:induction false} RemoveAllShrinks(p: Pool, ws: seq<WorkerId>)
    ensures Shrinks(p, RemoveAll(p, ws))
    decreases |ws|
  {
    if ws != [] {
      RemoveWorkerShrinks(p, ws[0]);
      RemoveAllShrinks(RemoveWorker(p, ws[0]), ws[1..]);
    }
  }

  lemma EvictShrinks(p: Pool, user: string)
    ensures Shrinks(p, Evict(p, user))
  {
    if user in p.subnodes && p.subnodes[user] < |p.nodes| {
      RemoveAllShrinks(p, p.nodes[p.subnodes[user]].workers);
    }
  }

  lemma DrainTurnShrinks(p: Pool, w: WorkerId, now: int, uidBlocked: nat -> bool)
    requires CanShift(p, w)
    ensures Shrinks(p, DrainTurn(p, w, now, uidBlocked).pool)
    ensures QueueLength(DrainTurn(p, w, now, uidBlocked).pool, w) < QueueLength(p, w)
  {
    var n := p.workers[w].node;
    var taken := Shift(p, n);
    ShiftShrinks(p, n);
    TurnShrinks(p, w, now, uidBlocked);
    ShrinksTransitive(p, taken, DrainTurn(p, w, now, uidBlocked).pool);
  }

  lemma TurnShrinks(p: Pool, w: WorkerId, now: int, uidBlocked: nat -> bool)
    requires CanShift(p, w)
    ensures Shrinks(Shift(p, p.workers[w].node), DrainTurn(p, w, now, uidBlocked).pool)
  {
    var taken := Shift(p, p.workers[w].node);
    var user := p.ledger.identities[p.nodes[p.workers[w].node].queue[0]].user;
    var q := DrainTurn(p, w, now, uidBlocked).pool;
    RemoveWorkerShrinks(taken, w);
    EvictShrinks(taken, user);
    assert Shrinks(taken, taken);
    assert exists t :: Shrinks(taken, t) && q == t.(ledger := q.ledger) by {
      assert q == taken.(ledger := q.ledger) || q == RemoveWorker(taken, w).(ledger := q.ledger)
          || q == Evict(taken, user).(ledger := q.ledger);
    }
  }

  lemma ShiftShrinks(p: Pool, n: NodeId)
    requires n < |p.nodes| && p.nodes[n].queue != [] && p.nodes[n].queue[0] in p.ledger.entries
    ensures Shrinks(p, Shift(p, n)) && |Shift(p, n).nodes[n].queue| < |p.nodes[n].queue|
  {
  }

  lemma ShrinksTransitive(p: Pool, q: Pool, r: Pool)
    requires Shrinks(p, q) && Shrinks(q, r)
    ensures Shrinks(p, r)
  {
  }

  /** Hands the queue's next admissible request to a worker that finished one. */
  function Drain(p: Pool, w: WorkerId, now: int, uidBlocked: nat -> bool): Pool
    requires w in p.workers
    decreases QueueLength(p, w)
  {
    if !CanShift(p, w) then ResetIdleTimer(p, w)
    else
      DrainTurnShrinks(p, w, now, uidBlocked);
      match DrainTurn(p, w, now, uidBlocked)
      case Stop(q) => q
      case Continue(q) => Drain(q, w, now, uidBlocked)
  }

  // ---------------------------------------------------------------------------
  // Events
  // ---------------------------------------------------------------------------

  datatype Event =
    | Dispatch(r: RequestId, id: Identity, blocked: bool)
    | Checked(r: RequestId, verdict: Option<Outcome>)
    | LockRuns(n: NodeId, forked: Option<WorkerId>, accepted: bool, now: int)
    | SpawnReady(n: NodeId, accepted: bool)
    | SpawnFails(n: NodeId, removed: bool)
    | Response(w: WorkerId, r: RequestId, now: int, uidBlocked: nat -> bool)
    | DrainChecked(r: RequestId, verdict: Option<Outcome>, accepted: bool, now: int, uidBlocked: nat -> bool)
    | RpcTimesOut(r: RequestId)
    | QueueTimesOut(n: NodeId, r: RequestId)
    | IdleFires(w: WorkerId)
    | Exits(w: WorkerId)
    | ShutdownBegins(order: seq<NodeId>)
    | ForceKill(order: seq<NodeId>)

  function Finish(p: Pool, r: RequestId, o: Outcome): Pool { p.(ledger := Settle(p.ledger, r, o)) }

  /** A new request: refused while shutting down or for its uid, else its groups are checked. */
  function Arrive(p: Pool, r: RequestId, id: Identity, uidBlocked: bool): Pool {
    var l := p.ledger.(identities := p.ledger.identities[r := id],
                       inHand := p.ledger.inHand + {r}, place := p.ledger.place[r := InHand]);
    var q := p.(ledger := l);
    if p.shuttingDown then Finish(q, r, WorkerError)
    else if uidBlocked then Finish(Evict(q, id.user), r, UidBlocked)
    else
      var c := Put(l, r, Checking);
      p.(ledger := c.(checking := c.checking + {r}))
  }

  /** Finds the user's subnode, or adds one. */
  function Enroll(p: Pool, user: string): Pool {
    if user in p.subnodes then p
    else p.(subnodes := p.subnodes[user := |p.nodes|], nodes := p.nodes + [Subnode(user, [], [], [], None, 0, [])])
  }

  /** Puts a request in hand in line for a subnode's lock. */
  function AwaitLock(p: Pool, n: NodeId, r: RequestId): Pool {
    if n >= |p.nodes| then p
    else p.(nodes := p.nodes[n := p.nodes[n].(waiting := p.nodes[n].waiting + [r])], ledger := Put(p.ledger, r, Waiting(n)))
  }

  predicate AtCapacity(p: Pool, user: string) {
    user !in p.subnodes && p.cfg.maxSubnodes > 0 && |p.subnodes| >= p.cfg.maxSubnodes
  }

  /** The group check of a new request ended; an admitted one waits for its user's lock. */
  function Admit(p: Pool, r: RequestId, verdict: Option<Outcome>): Pool
    requires r in p.ledger.identities
  {
    var user := p.ledger.identities[r].user;
    var q := Take(p, r);
    if verdict.Some? then Finish(Evict(q, user), r, verdict.value)
    else if AtCapacity(p, user) then
      Finish(q, r, SubnodeLimit)
    else
      var e := Enroll(q, user);
      AwaitLock(e, e.subnodes[user], r)
  }

  predicate Idle(p: Pool, w: WorkerId) { w in p.workers && p.workers[w].ready && p.workers[w].pending == [] }

  /** The idle workers among `ws` that run under other credentials than `id`. */
  function Stale(p: Pool, ws: seq<WorkerId>, id: Identity): seq<WorkerId>
    requires forall w :: w in ws ==> w in p.workers
  {
    if ws == [] then []
    else (if p.workers[ws[0]].pending == [] && !RunsAs(p.workers[ws[0]], id) then [ws[0]] else []) + Stale(p, ws[1..], id)
  }

  function FirstIdle(p: Pool, ws: seq<WorkerId>): (w: Option<WorkerId>)
    ensures w.Some? ==> w.value in ws && Idle(p, w.value)
  {
    if ws == [] then None else if Idle(p, ws[0]) then Some(ws[0]) else FirstIdle(p, ws[1..])
  }

  /** The first request waiting for the lock gets it. */
  function TakeLock(p: Pool, n: NodeId): Pool
    requires n < |p.nodes| && p.nodes[n].waiting != []
  {
    var s := p.nodes[n];
    p.(nodes := p.nodes[n := s.(waiting := s.waiting[1..])], ledger := Grab(p.ledger, s.waiting[0]))
  }

  /** It removes the idle workers of other credentials and puts its subnode back in the pool. */
  function Prepare(p: Pool, n: NodeId, id: Identity): Pool
    requires n < |p.nodes| && forall w :: w in p.nodes[n].workers ==> w in p.workers
  {
    var c := RemoveAll(p, Stale(p, p.nodes[n].workers, id));
    c.(subnodes := c.subnodes[p.nodes[n].user := n])
  }

  /** Starts a worker for a request in hand, which keeps the lock. */
  function Fork(p: Pool, n: NodeId, r: RequestId, w: WorkerId): Pool
    requires n < |p.nodes| && r in p.ledger.identities
  {
    var s, id := p.nodes[n], p.ledger.identities[r];
    var tier := if |s.workers| < p.cfg.min then Warm else Burst;
    p.(workers := p.workers[w := Worker(n, id.uid, id.gid, tier, false, false, false, [])],
       nodes := p.nodes[n := s.(spawning := Some(Spawn(r, w)))],
       ledger := Put(p.ledger, r, Spawning(n)))
  }

  /** Queues a request in hand and arms its timer. */
  function Enqueue(p: Pool, n: NodeId, r: RequestId, now: int): Pool
    requires n < |p.nodes|
  {
    var s := p.nodes[n];
    var l := Put(p.ledger, r, Queued(n));
    p.(nodes := p.nodes[n := s.(queue := s.queue + [r], arrivals := s.arrivals + 1)],
       ledger := l.(entries := l.entries[r := QueueEntry(now + p.cfg.queueTimeoutMs, s.arrivals)],
                    queueTimers := l.queueTimers + {r}))
  }

  /** Reuses an idle worker, spawns one, or queues the request. */
  function Assign(p: Pool, n: NodeId, r: RequestId, forked: Option<WorkerId>, accepted: bool, now: int): Pool
    requires n < |p.nodes| && r in p.ledger.identities
  {
    var s := p.nodes[n];
    var idle := FirstIdle(p, s.workers);
    if idle.Some? then SendRequest(p, idle.value, r, accepted)
    else if |s.workers| < p.cfg.max then
      if forked.None? then Finish(p, r, SpawnFailed) else Fork(p, n, r, forked.value)
    else Enqueue(p, n, r, now)
  }

  predicate CanLock(p: Pool, n: NodeId) {
    && n < |p.nodes| && p.nodes[n].spawning.None?
    && p.nodes[n].waiting != [] && p.nodes[n].waiting[0] in p.ledger.identities
    && forall w :: w in p.nodes[n].workers ==> w in p.workers
  }

  function RunLock(p: Pool, n: NodeId, forked: Option<WorkerId>, accepted: bool, now: int): Pool
    requires CanLock(p, n)
  {
    var r := p.nodes[n].waiting[0];
    var id := p.ledger.identities[r];
    var t := TakeLock(p, n);
    RemoveAllShrinks(t, Stale(t, t.nodes[n].workers, id));
    RemoveAllKeepsIdentities(t, Stale(t, t.nodes[n].workers, id));
    Assign(Prepare(t, n, id), n, r, forked, accepted, now)
  }

  lemma {:induction false} RemoveAllKeepsIdentities(p: Pool, ws: seq<WorkerId>)
    ensures RemoveAll(p, ws).ledger.identities == p.ledger.identities
    decreases |ws|
  {
    if ws != [] { RemoveAllKeepsIdentities(RemoveWorker(p, ws[0]), ws[1..]); }
  }

  /** Starting a worker is over: its request is in hand again and the lock free. */
  function EndSpawn(p: Pool, n: NodeId): Pool
    requires n < |p.nodes| && p.nodes[n].spawning.Some?
  {
    var s := p.nodes[n];
    p.(nodes := p.nodes[n := s.(spawning := None)], ledger := Grab(p.ledger, s.spawning.value.request))
  }

  /** Lists a worker that is ready. */
  function Join(p: Pool, n: NodeId, w: WorkerId): Pool
    requires n < |p.nodes| && w in p.workers
  {
    p.(nodes := p.nodes[n := p.nodes[n].(workers := p.nodes[n].workers + [w])],
       workers := p.workers[w := p.workers[w].(ready := true)])
  }

  /** The worker a subnode was spawning is ready: it joins the subnode and gets the request. */
  function Ready(p: Pool, n: NodeId, accepted: bool): Pool
    requires n < |p.nodes| && p.nodes[n].spawning.Some? && p.nodes[n].spawning.value.worker in p.workers
  {
    var Spawn(r, w) := p.nodes[n].spawning.value;
    SendRequest(Join(EndSpawn(p, n), n, w), w, r, accepted)
  }

  /** The spawn failed: the worker exited, or (not removed) only never got ready in time. */
  function FailSpawn(p: Pool, n: NodeId, removed: bool): Pool
    requires n < |p.nodes| && p.nodes[n].spawning.Some?
  {
    var Spawn(r, w) := p.nodes[n].spawning.value;
    Finish(if removed then RemoveWorker(EndSpawn(p, n), w) else EndSpawn(p, n), r, SpawnFailed)
  }

  function Respond(p: Pool, w: WorkerId, r: RequestId, now: int, uidBlocked: nat -> bool): Pool
    requires w in p.workers
  {
    if r in p.workers[w].pending then Finish(Drain(TakeBack(p, w, r), w, now, uidBlocked), r, Responded)
    else RemoveWorker(p, w)
  }

  function ResumeDrain(p: Pool, r: RequestId, verdict: Option<Outcome>, accepted: bool, now: int,
                       uidBlocked: nat -> bool): Pool
    requires r in p.ledger.draining && p.ledger.draining[r] in p.workers && r in p.ledger.identities
  {
    var w, q := p.ledger.draining[r], Take(p, r);
    if verdict.None? then SendRequest(q, w, r, accepted)
    else
      EvictShrinks(q, p.ledger.identities[r].user);
      Drain(Finish(Evict(q, p.ledger.identities[r].user), r, verdict.value), w, now, uidBlocked)
  }

  function TimeOutRpc(p: Pool, w: WorkerId, r: RequestId): Pool
    requires w in p.workers
  {
    Finish(RemoveWorker(TakeBack(p, w, r), w), r, TimedOut)
  }

  /** Takes a request in hand from anywhere in the queue. */
  function Dequeue(p: Pool, n: NodeId, r: RequestId): Pool
    requires n < |p.nodes|
  {
    var s := p.nodes[n];
    p.(nodes := p.nodes[n := s.(queue := Without(s.queue, r))], ledger := Grab(p.ledger, r))
  }

  function TimeOutQueued(p: Pool, n: NodeId, r: RequestId): Pool
    requires n < |p.nodes|
  {
    if r !in p.nodes[n].queue then p
    else
      Finish(Dequeue(p, n, r), r, TimedOut)
  }

  function FireIdle(p: Pool, w: WorkerId): Pool
    requires w in p.workers
  {
    RemoveWorker(p.(workers := p.workers[w := p.workers[w].(idleTimer := false)]), w)
  }

  function DropQueue(p: Pool, n: NodeId): Pool {
    if n >= |p.nodes| then p
    else p.(nodes := p.nodes[n := p.nodes[n].(queue := [])], ledger := RejectQueue(p.ledger, p.nodes[n].queue))
  }

  function DropQueues(p: Pool, order: seq<NodeId>): Pool
    decreases |order|
  {
    if order == [] then p else DropQueues(DropQueue(p, order[0]), order[1..])
  }

  function IdleOf(p: Pool, ws: seq<WorkerId>): seq<WorkerId> {
    if ws == [] then []
    else (if ws[0] in p.workers && p.workers[ws[0]].pending == [] then [ws[0]] else []) + IdleOf(p, ws[1..])
  }

  function RemoveIdle(p: Pool, order: seq<NodeId>): Pool
    decreases |order|
  {
    if order == [] then p
    else if order[0] >= |p.nodes| then RemoveIdle(p, order[1..])
    else RemoveIdle(RemoveAll(p, IdleOf(p, p.nodes[order[0]].workers)), order[1..])
  }

  function RemoveEvery(p: Pool, order: seq<NodeId>): Pool
    decreases |order|
  {
    if order == [] then p
    else if order[0] >= |p.nodes| then RemoveEvery(p, order[1..])
    else RemoveEvery(RemoveAll(p, p.nodes[order[0]].workers), order[1..])
  }

  predicate Enumerates(p: Pool, order: seq<NodeId>) {
    SetOf(order) == p.subnodes.Values
  }

  /** What a group check may say: nothing, a blocked group, or groups that could not be resolved. */
  predicate GroupVerdict(verdict: Option<Outcome>) {
    verdict.Some? ==> verdict.value.GidBlocked? || verdict.value.SpawnFailed?
  }

  predicate Enabled(p: Pool, ev: Event) {
    match ev
    case Dispatch(r, _, _) => r !in p.ledger.identities
    case Checked(r, verdict) => r in p.ledger.checking && r in p.ledger.identities && GroupVerdict(verdict)
    case LockRuns(n, forked, _, _) => CanLock(p, n) && (forked.Some? ==> forked.value !in p.workers)
    case SpawnReady(n, _) =>
      n < |p.nodes| && p.nodes[n].spawning.Some? && p.nodes[n].spawning.value.worker in p.workers
    case SpawnFails(n, _) => n < |p.nodes| && p.nodes[n].spawning.Some?
    case Response(w, _, _, _) => w in p.workers && p.workers[w].ready && !p.workers[w].removed
    case DrainChecked(r, verdict, _, _, _) =>
      && r in p.ledger.draining && p.ledger.draining[r] in p.workers && r in p.ledger.identities
      && GroupVerdict(verdict)
    case RpcTimesOut(r) => r in p.ledger.rpcTimers && p.ledger.rpcTimers[r] in p.workers
    case QueueTimesOut(n, r) => n < |p.nodes| && r in p.ledger.queueTimers
    case IdleFires(w) => w in p.workers && p.workers[w].idleTimer
    case Exits(w) => Known(p, w) && !(p.nodes[p.workers[w].node].spawning.Some? && p.nodes[p.workers[w].node].spawning.value.worker == w)
    case ShutdownBegins(order) => Enumerates(p, order)
    case ForceKill(order) => p.shuttingDown && Enumerates(p, order)
  }

  function Next(p: Pool, ev: Event): Pool
    requires Enabled(p, ev)
  {
    match ev
    case Dispatch(r, id, blocked) => Arrive(p, r, id, blocked)
    case Checked(r, verdict) => Admit(p, r, verdict)
    case LockRuns(n, forked, accepted, now) => RunLock(p, n, forked, accepted, now)
    case SpawnReady(n, accepted) => Ready(p, n, accepted)
    case SpawnFails(n, removed) => FailSpawn(p, n, removed)
    case Response(w, r, now, uidBlocked) => Respond(p, w, r, now, uidBlocked)
    case DrainChecked(r, verdict, accepted, now, uidBlocked) => ResumeDrain(p, r, verdict, accepted, now, uidBlocked)
    case RpcTimesOut(r) => TimeOutRpc(p, p.ledger.rpcTimers[r], r)
    case QueueTimesOut(n, r) => TimeOutQueued(p, n, r)
    case IdleFires(w) => FireIdle(p, w)
    case Exits(w) => RemoveWorker(p, w)
    case ShutdownBegins(order) => RemoveIdle(DropQueues(p.(shuttingDown := true), order), order)
    case ForceKill(order) => RemoveEvery(p, order)
  }

  const NO_REQUESTS := Ledger(map[], map[], {}, {}, map[], {}, map[], map[], [], [], map[])

  predicate Initial(p: Pool) {
    && 1 <= p.cfg.min <= p.cfg.max
    && p.subnodes == map[] && p.nodes == [] && p.workers == map[] && p.ledger == NO_REQUESTS && !p.shuttingDown
  }

  predicate IsRun(states: seq<Pool>, events: seq<Event>) {
    && |states| == |events| + 1 && Initial(states[0])
    && forall i :: 0 <= i < |events| ==> Enabled(states[i], events[i]) && states[i + 1] == Next(states[i], events[i])
  }
}
