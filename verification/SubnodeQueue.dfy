/**
 How long a request may wait for a worker, and what becomes of it.
 */
module SubnodeQueues {
  import opened Wrappers
  import opened SubnodeModel
  import opened SubnodeSafety
  import opened SubnodeEvents
  import opened SubnodeLogs
  import opened SubnodeRuns

  ghost predicate InQueue(p: Pool, n: NodeId, r: RequestId) { n < |p.nodes| && r in p.nodes[n].queue }

  ghost predicate Expires(p: Pool, r: RequestId, deadline: int) {
    r in p.ledger.entries && p.ledger.entries[r].deadline == deadline
  }

  /** Request `r` gets the lock of subnode `n`. */
  ghost predicate GetsLock(p: Pool, ev: Event, n: NodeId, r: RequestId) {
    ev.LockRuns? && ev.n == n && n < |p.nodes| && p.nodes[n].waiting != [] && p.nodes[n].waiting[0] == r
  }

  // ---------------------------------------------------------------------------
  // Joining a queue
  // ---------------------------------------------------------------------------

  lemma QueuesStay(p: Pool, q: Pool, m: NodeId, s: RequestId)
    requires GrowsIn(Queues, p, q) && InQueue(q, m, s)
    ensures InQueue(p, m, s) && forall d :: Expires(p, s, d) ==> Expires(q, s, d)
  {
  }

  lemma EnqueueQueues(p: Pool, n: NodeId, r: RequestId, now: int, m: NodeId, s: RequestId)
    requires n < |p.nodes| && !InQueue(p, m, r) && InQueue(Enqueue(p, n, r, now), m, s)
    ensures var q := Enqueue(p, n, r, now);
            || (InQueue(p, m, s) && forall d :: Expires(p, s, d) ==> Expires(q, s, d))
            || (m == n && s == r && Expires(q, r, now + p.cfg.queueTimeoutMs))
  {
    assert Enqueue(p, n, r, now).nodes[n].queue == p.nodes[n].queue + [r];
  }

  lemma AssignQueues(p: Pool, n: NodeId, r: RequestId, forked: Option<WorkerId>, accepted: bool, now: int, m: NodeId, s: RequestId)
    requires n < |p.nodes| && r in p.ledger.identities && !InQueue(p, m, r) && (forked.Some? ==> forked.value !in p.workers)
    requires InQueue(Assign(p, n, r, forked, accepted, now), m, s)
    ensures var q := Assign(p, n, r, forked, accepted, now);
            || (InQueue(p, m, s) && forall d :: Expires(p, s, d) ==> Expires(q, s, d))
            || (m == n && s == r && Expires(q, r, now + p.cfg.queueTimeoutMs))
  {
    var q, idle := Assign(p, n, r, forked, accepted, now), FirstIdle(p, p.nodes[n].workers);
    if idle.None? && |p.nodes[n].workers| >= p.cfg.max {
      EnqueueQueues(p, n, r, now, m, s);
    } else {
      if idle.Some? { SendGrows(p, idle.value, r, accepted); }
      else if forked.Some? { ForkGrows(p, n, r, forked.value); }
      else { FinishFrame(p, r, SpawnFailed); }
      assert GrowsIn(Queues, p, q);
      QueuesStay(p, q, m, s);
    }
  }

  /** Who is in a queue was there before, or was given the lock now. */
  lemma StepQueues(p: Pool, ev: Event, n: NodeId, r: RequestId)
    requires Steady(p) && Enabled(p, ev) && InQueue(Next(p, ev), n, r)
    ensures || (InQueue(p, n, r) && forall d :: Expires(p, r, d) ==> Expires(Next(p, ev), r, d))
            || (GetsLock(p, ev, n, r) && Expires(Next(p, ev), r, ev.now + p.cfg.queueTimeoutMs))
  {
    NextGrows(p, ev);
    var q := Next(p, ev);
    if ev.LockRuns? {
      var head := p.nodes[ev.n].waiting[0];
      Orderly(p, {});
      assert Occurs(p, head, Waiting(ev.n)) && !Occurs(p, head, Queued(n));
      LockQueues(p, ev.n, ev.forked, ev.accepted, ev.now, n, r);
    } else {
      assert GrowsIn(Queues, p, q);
    }
  }

  lemma LockQueues(p: Pool, n: NodeId, forked: Option<WorkerId>, accepted: bool, now: int, m: NodeId, s: RequestId)
    requires CanLock(p, n) && !InQueue(p, m, p.nodes[n].waiting[0]) && (forked.Some? ==> forked.value !in p.workers)
    requires InQueue(RunLock(p, n, forked, accepted, now), m, s)
    ensures var q, r := RunLock(p, n, forked, accepted, now), p.nodes[n].waiting[0];
            || (InQueue(p, m, s) && forall d :: Expires(p, s, d) ==> Expires(q, s, d))
            || (m == n && s == r && Expires(q, r, now + p.cfg.queueTimeoutMs))
  {
    var t, r := TakeLock(p, n), p.nodes[n].waiting[0];
    var id := p.ledger.identities[r];
    var c := Prepare(t, n, id);
    PreparedQueues(p, n, id);
    assert !InQueue(c, m, r);
    RemoveAllShrinks(t, Stale(t, t.nodes[n].workers, id));
    RemoveAllKeepsIdentities(t, Stale(t, t.nodes[n].workers, id));
    AssignQueues(c, n, r, forked, accepted, now, m, s);
    if InQueue(c, m, s) { QueuesStay(p, c, m, s); }
  }

  lemma PreparedQueues(p: Pool, n: NodeId, id: Identity)
    requires CanLock(p, n)
    ensures var c := Prepare(TakeLock(p, n), n, id);
            GrowsIn(Queues, p, c) && c.cfg == p.cfg
  {
    var t := TakeLock(p, n);
    TakeLockGrows(p, n);
    PrepareGrows(t, n, id);
    GrowsTransitive(p, t, Prepare(t, n, id));
    assert GrowsIn(Settings, p, Prepare(t, n, id));
  }

  /** When a queued request joined: it was given the lock, has been in the queue since, and may wait there
      for the configured time, counted from then. */
  lemma {:induction false} QueuedSince(states: seq<Pool>, events: seq<Event>, j: nat, n: NodeId, r: RequestId) returns (i: nat)
    requires IsRun(states, events) && j < |states| && InQueue(states[j], n, r)
    ensures i < j && GetsLock(states[i], events[i], n, r)
    ensures forall k :: i < k <= j ==> InQueue(states[k], n, r)
    ensures Expires(states[j], r, events[i].now + states[j].cfg.queueTimeoutMs)
    decreases j
  {
    var p, ev := states[j - 1], events[j - 1];
    RunSteady(states, events, j - 1);
    StepQueues(p, ev, n, r);
    NextGrows(p, ev);
    assert GrowsIn(Settings, p, states[j]);
    if InQueue(p, n, r) && (forall d :: Expires(p, r, d) ==> Expires(states[j], r, d)) {
      i := QueuedSince(states, events, j - 1, n, r);
    } else {
      i := j - 1;
    }
  }

  /** Every user of the pool has the subnode of that name, and waits and queues in no other. */
  lemma OwnSubnode(states: seq<Pool>, events: seq<Event>, j: nat, n: NodeId, r: RequestId)
    requires IsRun(states, events) && j < |states| && n < |states[j].nodes|
    requires r in states[j].nodes[n].waiting || InQueue(states[j], n, r)
    ensures forall user :: user in states[j].subnodes ==>
              states[j].subnodes[user] < |states[j].nodes| && states[j].nodes[states[j].subnodes[user]].user == user
    ensures r in states[j].ledger.identities && states[j].ledger.identities[r].user == states[j].nodes[n].user
  {
    RunAtHome(states, events, j);
    if r !in states[j].nodes[n].waiting {
      var i := QueuedSince(states, events, j, n, r);
      RunAtHome(states, events, i);
      RunGrows(states, events, i, j);
      assert GrowsIn(Requests, states[i], states[j]) && GrowsIn(Shifts, states[i], states[j]);
    }
  }

  lemma RunAtHome(states: seq<Pool>, events: seq<Event>, j: nat)
    requires IsRun(states, events) && j < |states|
    ensures AtHome(states[j])
  {
    RunGrows(states, events, 0, j);
    assert GrowsIn(Homes, states[0], states[j]);
  }

  // ---------------------------------------------------------------------------
  // Leaving a queue
  // ---------------------------------------------------------------------------

  /** The drain of worker `w` reaches the `k`th request of its queue: every one before has expired. */
  ghost predicate Reaches(p: Pool, w: WorkerId, k: nat, now: int) {
    && Known(p, w) && k < |p.nodes[p.workers[w].node].queue|
    && forall i :: 0 <= i < k ==> Late(p, p.nodes[p.workers[w].node].queue[i], now)
  }

  predicate Late(p: Pool, r: RequestId, now: int) { r in p.ledger.entries && now > p.ledger.entries[r].deadline }

  /** What a drain by worker `w` makes of a request it reaches. */
  ghost predicate Decided(p: Pool, q: Pool, w: WorkerId, r: RequestId, now: int, uidBlocked: nat -> bool) {
    && r in p.ledger.identities && r in p.ledger.entries && w in p.workers && w in q.workers
    && var id := p.ledger.identities[r];
       if now > p.ledger.entries[r].deadline then SettledWith(q, r, TimedOut)
       else if !RunsAs(p.workers[w], id) then SettledWith(q, r, WorkerError) && q.workers[w].removed
       else if uidBlocked(id.uid) then SettledWith(q, r, UidBlocked)
       else Occurs(q, r, Draining(w))
  }

  lemma DrainKeeps(p: Pool, w: WorkerId, now: int, uidBlocked: nat -> bool, r: RequestId, o: Outcome)
    requires Free(p, w) && SettledWith(p, r, o)
    ensures SettledWith(Drain(p, w, now, uidBlocked), r, o)
  {
    var q := Drain(p, w, now, uidBlocked);
    DrainGrows(p, w, now, uidBlocked);
    DrainSound(p, w, now, uidBlocked);
    assert GrowsIn(Settlements, p, q) && GrowsIn(Verdicts, p, q);
    assert Holds(IsPlaced, q, {});
    SettledKeepsOutcome(p, q, r);
  }

  lemma WrongWorkerRemoved(p: Pool, w: WorkerId, now: int, uidBlocked: nat -> bool)
    requires CanShift(p, w)
    requires var r := p.nodes[p.workers[w].node].queue[0];
             now <= p.ledger.entries[r].deadline && !RunsAs(p.workers[w], p.ledger.identities[r])
    ensures var q := DrainTurn(p, w, now, uidBlocked);
            && q.Stop? && w in q.pool.workers && q.pool.workers[w].removed
            && SettledWith(q.pool, p.nodes[p.workers[w].node].queue[0], WorkerError)
  {
    var taken := Shift(p, p.workers[w].node);
    assert Known(taken, w);
    RemoveWorkerRemoves(taken, w);
  }

  lemma DrainUnfolds(p: Pool, w: WorkerId, now: int, uidBlocked: nat -> bool)
    requires CanShift(p, w)
    ensures var t := DrainTurn(p, w, now, uidBlocked);
            w in t.pool.workers && Drain(p, w, now, uidBlocked) == if t.Stop? then t.pool else Drain(t.pool, w, now, uidBlocked)
  {
    DrainTurnShrinks(p, w, now, uidBlocked);
  }

  lemma HeadSettled(p: Pool, w: WorkerId, now: int, uidBlocked: nat -> bool)
    requires CanShift(p, w)
    ensures var r := p.nodes[p.workers[w].node].queue[0];
            var t, id := DrainTurn(p, w, now, uidBlocked), p.ledger.identities[r];
            && (now > p.ledger.entries[r].deadline ==> t.Continue? && SettledWith(t.pool, r, TimedOut))
            && (now <= p.ledger.entries[r].deadline && RunsAs(p.workers[w], id) ==>
                  if uidBlocked(id.uid) then t.Continue? && SettledWith(t.pool, r, UidBlocked)
                  else t.Stop? && Occurs(t.pool, r, Draining(w)))
  {
  }

  /** The head of the queue. */
  lemma DrainHead(p: Pool, w: WorkerId, now: int, uidBlocked: nat -> bool)
    requires Free(p, w) && CanShift(p, w)
    ensures Decided(p, Drain(p, w, now, uidBlocked), w, p.nodes[p.workers[w].node].queue[0], now, uidBlocked)
  {
    var r := p.nodes[p.workers[w].node].queue[0];
    var t, id := DrainTurn(p, w, now, uidBlocked), p.ledger.identities[r];
    DrainUnfolds(p, w, now, uidBlocked);
    DrainTurnSound(p, w, now, uidBlocked);
    DrainGrows(p, w, now, uidBlocked);
    assert GrowsIn(Credentials, p, Drain(p, w, now, uidBlocked));
    HeadSettled(p, w, now, uidBlocked);
    if now > p.ledger.entries[r].deadline {
      DrainKeeps(t.pool, w, now, uidBlocked, r, TimedOut);
    } else if !RunsAs(p.workers[w], id) {
      WrongWorkerRemoved(p, w, now, uidBlocked);
    } else if uidBlocked(id.uid) {
      DrainKeeps(t.pool, w, now, uidBlocked, r, UidBlocked);
    }
  }

  lemma {:induction false} DrainDecides(p: Pool, w: WorkerId, now: int, uidBlocked: nat -> bool, k: nat)
    requires Free(p, w) && Reaches(p, w, k, now)
    ensures Decided(p, Drain(p, w, now, uidBlocked), w, p.nodes[p.workers[w].node].queue[k], now, uidBlocked)
    decreases k
  {
    FreeFacts(p, w);
    if k == 0 {
      DrainHead(p, w, now, uidBlocked);
    } else {
      var n := p.workers[w].node;
      assert Late(p, p.nodes[n].queue[0], now);
      var q := DrainTurn(p, w, now, uidBlocked).pool;
      DrainTurnSound(p, w, now, uidBlocked);
      assert q.nodes[n].queue == p.nodes[n].queue[1..] && q.workers == p.workers;
      forall i | 0 <= i < k - 1 ensures Late(q, q.nodes[n].queue[i], now) {
        assert Late(p, p.nodes[n].queue[i + 1], now);
      }
      DrainDecides(q, w, now, uidBlocked, k - 1);
    }
  }

  lemma RespondDecides(p: Pool, w: WorkerId, s: RequestId, now: int, uidBlocked: nat -> bool, k: nat)
    requires Steady(p) && Enabled(p, Response(w, s, now, uidBlocked)) && s in p.workers[w].pending && Reaches(p, w, k, now)
    ensures Decided(p, Respond(p, w, s, now, uidBlocked), w, p.nodes[p.workers[w].node].queue[k], now, uidBlocked)
  {
    var t, r := TakeBack(p, w, s), p.nodes[p.workers[w].node].queue[k];
    TakeBackSound(p, w, s);
    Orderly(p, {});
    assert Occurs(p, s, InFlight(w)) && !Occurs(p, s, Queued(p.workers[w].node)) && s != r;
    forall i | 0 <= i < k ensures Late(t, t.nodes[t.workers[w].node].queue[i], now) {
      assert Late(p, p.nodes[p.workers[w].node].queue[i], now);
    }
    DrainDecides(t, w, now, uidBlocked, k);
  }

  /** What becomes of a queued request when a worker of its subnode answers another one, counted from when it
      was given the lock: later than the configured time it is settled as timed out; else a worker of other
      credentials is removed and it fails; else a blocked uid fails it; else it is taken on by the worker. */
  lemma ReachedInTime(states: seq<Pool>, events: seq<Event>, j: nat, k: nat) returns (i: nat)
    requires IsRun(states, events) && j < |events| && events[j].Response?
    requires events[j].w in states[j].workers && events[j].r in states[j].workers[events[j].w].pending
    requires Reaches(states[j], events[j].w, k, events[j].now)
    ensures var p, q, ev := states[j], states[j + 1], events[j];
            var n := p.workers[ev.w].node;
            var r := p.nodes[n].queue[k];
            && i < j && GetsLock(states[i], events[i], n, r)
            && (forall m :: i < m <= j ==> InQueue(states[m], n, r))
            && r in p.ledger.identities && ev.w in q.workers
            && var id := p.ledger.identities[r];
               if ev.now - events[i].now > p.cfg.queueTimeoutMs then SettledWith(q, r, TimedOut)
               else if !RunsAs(p.workers[ev.w], id) then SettledWith(q, r, WorkerError) && q.workers[ev.w].removed
               else if ev.uidBlocked(id.uid) then SettledWith(q, r, UidBlocked)
               else Occurs(q, r, Draining(ev.w))
  {
    var p, ev := states[j], events[j];
    var n := p.workers[ev.w].node;
    var r := p.nodes[n].queue[k];
    RunSteady(states, events, j);
    assert Enabled(p, ev);
    RespondDecides(p, ev.w, ev.r, ev.now, ev.uidBlocked, k);
    i := QueuedSince(states, events, j, n, r);
  }

  // ---------------------------------------------------------------------------
  // Joining the line, and what the lock's holder does
  // ---------------------------------------------------------------------------

  /** The workers of the user's subnode are removed, and no others. */
  ghost predicate Evicted(p: Pool, q: Pool, user: string) {
    forall w :: w in p.workers ==>
      w in q.workers
      && if user in p.subnodes && InList(p, p.subnodes[user], w) then q.workers[w].removed else q.workers[w] == p.workers[w]
  }

  ghost predicate InList(p: Pool, n: NodeId, w: WorkerId) { n < |p.nodes| && w in p.nodes[n].workers }

  lemma EvictEvicts(p: Pool, user: string, exempt: set<WorkerId>)
    requires Sound(p, exempt)
    ensures Evicted(p, Evict(p, user), user)
  {
    if user in p.subnodes {
      var n := p.subnodes[user];
      Unpack(p, exempt);
      var ws := p.nodes[n].workers;
      RemoveAllSpares(p, ws);
      assert NodeFits(n, p.nodes[n], p.workers);
      forall w | w in ws ensures w in RemoveAll(p, ws).workers && RemoveAll(p, ws).workers[w].removed {
        RemoveAllRemoves(p, ws, w);
      }
    }
  }

  /** A new request is refused while shutting down, or for its uid; else its groups are checked. */
  lemma NewRequest(states: seq<Pool>, events: seq<Event>, i: nat)
    requires IsRun(states, events) && i < |events| && events[i].Dispatch?
    ensures var p, q, ev := states[i], states[i + 1], events[i];
            && ev.r in q.ledger.identities && q.ledger.identities[ev.r] == ev.id
            && (p.shuttingDown ==> SettledWith(q, ev.r, WorkerError) && q.workers == p.workers)
            && (!p.shuttingDown && ev.blocked ==> SettledWith(q, ev.r, UidBlocked) && Evicted(p, q, ev.id.user))
            && (!p.shuttingDown && !ev.blocked ==> Occurs(q, ev.r, Checking) && q.workers == p.workers)
  {
    var p, ev := states[i], events[i];
    RunSteady(states, events, i);
    assert Enabled(p, ev);
    NewcomerSound(p, ev.r, ev.id);
    var c := Newcomer(p, ev.r, ev.id);
    EvictEvicts(c, ev.id.user, {});
    EvictSound(c, ev.id.user, {});
  }

  /** A failed group check settles the request and removes its user's workers. A passed one puts it last in line
      for its user's lock, unless the user has no subnode, a limit above 0 is set, and that many exist. */
  lemma GroupCheckEnds(states: seq<Pool>, events: seq<Event>, i: nat)
    requires IsRun(states, events) && i < |events| && events[i].Checked?
    ensures var p, q, ev := states[i], states[i + 1], events[i];
            && ev.r in p.ledger.identities
            && var user := p.ledger.identities[ev.r].user;
               if ev.verdict.Some? then SettledWith(q, ev.r, ev.verdict.value) && Evicted(p, q, user)
               else if user !in p.subnodes && p.cfg.maxSubnodes > 0 && |p.subnodes| >= p.cfg.maxSubnodes then
                 SettledWith(q, ev.r, SubnodeLimit) && q.nodes == p.nodes && q.subnodes == p.subnodes
               else InLine(p, q, user, ev.r)
  {
    var p, ev := states[i], events[i];
    RunSteady(states, events, i);
    assert Enabled(p, ev);
    var t, user := Take(p, ev.r), p.ledger.identities[ev.r].user;
    if ev.verdict.Some? {
      GrabCheckedSound(p, ev.r);
      EvictEvicts(t, user, {});
    } else if AtCapacity(p, user) {
      assert SettledWith(Finish(t, ev.r, SubnodeLimit), ev.r, SubnodeLimit);
    } else {
      assert Holds(IsStaffed, p, {});
      JoinsLine(p, t, user, ev.r);
    }
  }

  lemma JoinsLine(p: Pool, t: Pool, user: string, r: RequestId)
    requires t.subnodes == p.subnodes && t.nodes == p.nodes && (user in p.subnodes ==> p.subnodes[user] < |p.nodes|)
    ensures var e := Enroll(t, user);
            InLine(p, AwaitLock(e, e.subnodes[user], r), user, r)
  {
    var e := Enroll(t, user);
    if user in p.subnodes { assert p.subnodes[user := p.subnodes[user]] == p.subnodes; }
    else { assert e.nodes[|p.nodes|].waiting + [r] == [r]; }
  }

  /** Request `r` is last in line for the lock of the user's subnode, a new one if there was none. */
  ghost predicate InLine(p: Pool, q: Pool, user: string, r: RequestId) {
    var n := if user in p.subnodes then p.subnodes[user] else |p.nodes|;
    && q.subnodes == p.subnodes[user := n] && n < |q.nodes| && Occurs(q, r, Waiting(n))
    && if user in p.subnodes then n < |p.nodes| && q.nodes[n].waiting == p.nodes[n].waiting + [r]
       else q.nodes[n] == Subnode(user, [], [], [r], None, 0, [])
  }

  /** Worker `w` is busy, or runs under the credentials of `id`. */
  ghost predicate Usable(p: Pool, n: NodeId, id: Identity, w: WorkerId) {
    InList(p, n, w) && w in p.workers && (p.workers[w].pending != [] || RunsAs(p.workers[w], id))
  }

  lemma PreparedList(p: Pool, n: NodeId, id: Identity, w: WorkerId)
    requires Sound(p, {}) && n < |p.nodes| && forall v :: v in p.nodes[n].workers ==> v in p.workers
    ensures InList(Prepare(p, n, id), n, w) <==> Usable(p, n, id, w)
    ensures Usable(p, n, id, w) ==> w in Prepare(p, n, id).workers && Prepare(p, n, id).workers[w] == p.workers[w]
  {
    var ws, q := Stale(p, p.nodes[n].workers, id), Prepare(p, n, id);
    PrepareSound(p, n, id);
    StaleFacts(p, p.nodes[n].workers, id);
    RemoveAllSpares(p, ws);
    assert Holds(IsStaffed, p, {}) && Holds(IsStaffed, q, {});
    assert NodeFits(n, p.nodes[n], p.workers) && NodeFits(n, q.nodes[n], q.workers);
    if w in q.workers { assert WorkerFits(w, q.workers[w], q.nodes); }
    if w in p.workers { assert WorkerFits(w, p.workers[w], p.nodes); }
    if w in ws { RemoveAllRemoves(p, ws, w); }
  }

  ghost predicate Unused(p: Pool, n: NodeId, id: Identity, w: WorkerId) {
    InList(p, n, w) && w in p.workers && p.workers[w].pending == [] && RunsAs(p.workers[w], id)
  }

  /** Worker `w` got request `r`, or its channel did not take it and the request failed. */
  ghost predicate Handed(q: Pool, w: WorkerId, r: RequestId, accepted: bool) {
    && q.ledger.sent != [] && Last(q.ledger.sent) == Send(r, w, accepted)
    && if accepted then Occurs(q, r, InFlight(w)) else SettledWith(q, r, WorkerError)
  }

  /** Worker `w` is being started for request `r`, under the credentials of `id`. */
  ghost predicate Starting(q: Pool, n: NodeId, r: RequestId, id: Identity, w: WorkerId) {
    && n < |q.nodes| && q.nodes[n].spawning == Some(Spawn(r, w)) && w in q.workers
    && RunsAs(q.workers[w], id) && q.workers[w].node == n && !q.workers[w].ready && q.workers[w].pending == []
    && (q.workers[w].tier == Warm <==> |q.nodes[n].workers| < q.cfg.min)
  }

  /** What becomes of a request in hand that has the lock. */
  ghost predicate Assigned(p: Pool, q: Pool, ev: Event, r: RequestId, id: Identity)
    requires ev.LockRuns?
  {
    if exists w :: Unused(p, ev.n, id, w) then exists w :: Unused(p, ev.n, id, w) && Handed(q, w, r, ev.accepted)
    else Unserved(q, ev, r, id)
  }

  /** With no worker for it the request is queued where the maximum is reached, else a worker is started or
      fails to start. */
  ghost predicate Unserved(q: Pool, ev: Event, r: RequestId, id: Identity)
    requires ev.LockRuns?
  {
    && ev.n < |q.nodes|
    && if |q.nodes[ev.n].workers| >= q.cfg.max then InQueue(q, ev.n, r) && Last(q.nodes[ev.n].queue) == r
       else if ev.forked.None? then SettledWith(q, r, SpawnFailed)
       else Starting(q, ev.n, r, id, ev.forked.value)
  }

  lemma IdleChosen(p: Pool, n: NodeId, id: Identity)
    requires Sound(p, {}) && n < |p.nodes|
    requires forall w :: w in p.nodes[n].workers && Idle(p, w) ==> RunsAs(p.workers[w], id)
    ensures FirstIdle(p, p.nodes[n].workers).Some? <==> exists w :: Unused(p, n, id, w)
    ensures FirstIdle(p, p.nodes[n].workers).Some? ==>
              var w := FirstIdle(p, p.nodes[n].workers).value;
              Unused(p, n, id, w) && p.workers[w].ready && !p.workers[w].removed
  {
    var ws, idle := p.nodes[n].workers, FirstIdle(p, p.nodes[n].workers);
    assert Holds(IsStaffed, p, {});
    assert NodeFits(n, p.nodes[n], p.workers);
    forall w | w in ws ensures WorkerFits(w, p.workers[w], p.nodes) {}
    if idle.Some? {
      assert Unused(p, n, id, idle.value);
    } else {
      forall w | Unused(p, n, id, w) ensures false { NoneIdle(p, ws, w); }
    }
  }

  lemma SendHands(p: Pool, w: WorkerId, r: RequestId, accepted: bool)
    requires w in p.workers && !p.workers[w].removed
    ensures Handed(SendRequest(p, w, r, accepted), w, r, accepted) && SendRequest(p, w, r, accepted).nodes == p.nodes
  {
  }

  lemma ForkStarts(p: Pool, n: NodeId, r: RequestId, w: WorkerId)
    requires n < |p.nodes| && r in p.ledger.identities
    ensures Starting(Fork(p, n, r, w), n, r, p.ledger.identities[r], w)
    ensures Fork(p, n, r, w).nodes[n].workers == p.nodes[n].workers
  {
  }

  lemma EnqueueLast(p: Pool, n: NodeId, r: RequestId, now: int)
    requires n < |p.nodes|
    ensures var q := Enqueue(p, n, r, now);
            InQueue(q, n, r) && Last(q.nodes[n].queue) == r && q.nodes[n].workers == p.nodes[n].workers
  {
  }

  lemma ServesIdle(p: Pool, ev: Event, r: RequestId, w: WorkerId)
    requires ev.LockRuns? && ev.n < |p.nodes| && r in p.ledger.identities
    requires FirstIdle(p, p.nodes[ev.n].workers) == Some(w) && !p.workers[w].removed
    ensures var q := Assign(p, ev.n, r, ev.forked, ev.accepted, ev.now);
            q.nodes == p.nodes && Handed(q, w, r, ev.accepted)
  {
    SendHands(p, w, r, ev.accepted);
  }

  lemma QueuesUp(p: Pool, ev: Event, r: RequestId)
    requires ev.LockRuns? && ev.n < |p.nodes| && r in p.ledger.identities
    requires FirstIdle(p, p.nodes[ev.n].workers).None? && |p.nodes[ev.n].workers| >= p.cfg.max
    ensures var q := Assign(p, ev.n, r, ev.forked, ev.accepted, ev.now);
            && ev.n < |q.nodes| && q.nodes[ev.n].workers == p.nodes[ev.n].workers
            && Unserved(q, ev, r, p.ledger.identities[r])
  {
    var q := Enqueue(p, ev.n, r, ev.now);
    EnqueueLast(p, ev.n, r, ev.now);
    assert q.cfg == p.cfg;
    assert Unserved(q, ev, r, p.ledger.identities[r]);
  }

  lemma StartsWorker(p: Pool, ev: Event, r: RequestId)
    requires ev.LockRuns? && ev.n < |p.nodes| && r in p.ledger.identities
    requires FirstIdle(p, p.nodes[ev.n].workers).None? && |p.nodes[ev.n].workers| < p.cfg.max
    ensures var q := Assign(p, ev.n, r, ev.forked, ev.accepted, ev.now);
            && ev.n < |q.nodes| && q.nodes[ev.n].workers == p.nodes[ev.n].workers
            && Unserved(q, ev, r, p.ledger.identities[r])
  {
    if ev.forked.Some? { ForkStarts(p, ev.n, r, ev.forked.value); }
  }

  lemma AssignDecides(p: Pool, ev: Event, r: RequestId)
    requires ev.LockRuns? && Sound(p, {}) && ev.n < |p.nodes| && r in p.ledger.identities
    requires forall w :: w in p.nodes[ev.n].workers && Idle(p, w) ==> RunsAs(p.workers[w], p.ledger.identities[r])
    ensures var q := Assign(p, ev.n, r, ev.forked, ev.accepted, ev.now);
            && ev.n < |q.nodes| && q.nodes[ev.n].workers == p.nodes[ev.n].workers
            && Assigned(p, q, ev, r, p.ledger.identities[r])
  {
    var n := ev.n;
    IdleChosen(p, n, p.ledger.identities[r]);
    ListedLive(p, n);
    var idle := FirstIdle(p, p.nodes[n].workers);
    if idle.Some? { ServesIdle(p, ev, r, idle.value); }
    else if |p.nodes[n].workers| >= p.cfg.max { QueuesUp(p, ev, r); }
    else { StartsWorker(p, ev, r); }
  }

  lemma ListedLive(p: Pool, n: NodeId)
    requires Sound(p, {}) && n < |p.nodes|
    ensures forall w :: w in p.nodes[n].workers && w in p.workers ==> !p.workers[w].removed
  {
    assert Holds(IsStaffed, p, {});
    assert NodeFits(n, p.nodes[n], p.workers);
    forall w | w in p.nodes[n].workers ensures WorkerFits(w, p.workers[w], p.nodes) {}
  }

  lemma AssignedFrom(p: Pool, c: Pool, q: Pool, ev: Event, r: RequestId, id: Identity)
    requires ev.LockRuns? && Assigned(c, q, ev, r, id)
    requires forall w :: Unused(c, ev.n, id, w) <==> Unused(p, ev.n, id, w)
    ensures Assigned(p, q, ev, r, id)
  {
  }

  /** The lock's holder removes exactly the idle workers of other credentials. Then its request goes to an unused
      worker of its own; where there is none and the maximum is reached it is queued; else a worker is started
      for it, or fails to start. */
  lemma LockDecides(states: seq<Pool>, events: seq<Event>, i: nat)
    requires IsRun(states, events) && i < |events| && events[i].LockRuns?
    ensures var p, q, ev := states[i], states[i + 1], events[i];
            && CanLock(p, ev.n)
            && var r := p.nodes[ev.n].waiting[0];
               var id := p.ledger.identities[r];
               && (forall w :: InList(q, ev.n, w) <==> Usable(p, ev.n, id, w))
               && Assigned(p, q, ev, r, id)
  {
    var p, q, ev := states[i], states[i + 1], events[i];
    RunSteady(states, events, i);
    assert Enabled(p, ev);
    var r := p.nodes[ev.n].waiting[0];
    var t, id := TakeLock(p, ev.n), p.ledger.identities[r];
    var c := Prepare(t, ev.n, id);
    TakeLockSound(p, ev.n);
    PrepareSound(t, ev.n, id);
    PreparedLists(t, ev.n, id);
    forall w | w in c.nodes[ev.n].workers && Idle(c, w) ensures RunsAs(c.workers[w], id) {
      PreparedRunsAs(t, ev.n, id, w);
    }
    AssignDecides(c, ev, r);
    AssignedFrom(t, c, q, ev, r, id);
    TakenLists(p, ev.n, id);
    AssignedFrom(p, t, q, ev, r, id);
  }

  lemma PreparedLists(p: Pool, n: NodeId, id: Identity)
    requires Sound(p, {}) && n < |p.nodes| && forall v :: v in p.nodes[n].workers ==> v in p.workers
    ensures forall w :: InList(Prepare(p, n, id), n, w) <==> Usable(p, n, id, w)
    ensures forall w :: Unused(Prepare(p, n, id), n, id, w) <==> Unused(p, n, id, w)
  {
    var c := Prepare(p, n, id);
    forall w ensures InList(c, n, w) <==> Usable(p, n, id, w) { PreparedList(p, n, id, w); }
    forall w ensures Unused(c, n, id, w) <==> Unused(p, n, id, w) { PreparedList(p, n, id, w); }
  }

  lemma TakenLists(p: Pool, n: NodeId, id: Identity)
    requires n < |p.nodes| && p.nodes[n].waiting != []
    ensures forall w :: Usable(TakeLock(p, n), n, id, w) <==> Usable(p, n, id, w)
    ensures forall w :: Unused(TakeLock(p, n), n, id, w) <==> Unused(p, n, id, w)
  {
  }
}
