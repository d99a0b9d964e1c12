/**
 The worker pool as the hub runs it: one object whose handlers update its fields, each proved to do
 what its event does in the state machine.
 */
module SubnodePools {
  import opened Wrappers
  import opened SubnodeModel
  import opened SubnodeSafety
  import opened SubnodeEvents
  import opened SubnodeRuns

  function RejectOne(l: Ledger, r: RequestId, o: Outcome): Ledger {
    l.(settled := l.settled + [r], outcomes := l.outcomes[r := o], place := l.place[r := Settled])
  }

  lemma MapSnoc<V>(m: map<RequestId, V>, rs: seq<RequestId>, r: RequestId, v: V)
    ensures m + Each(rs + [r], v) == (m + Each(rs, v))[r := v]
  {
  }

  lemma SetOfSnoc(rs: seq<RequestId>, r: RequestId)
    ensures SetOf(rs + [r]) == SetOf(rs) + {r}
  {
  }

  /** Rejecting one more request is rejecting a list one longer. */
  lemma RejectAllSnoc(l: Ledger, rs: seq<RequestId>, r: RequestId, o: Outcome)
    ensures RejectAll(l, rs + [r], o) == RejectOne(RejectAll(l, rs, o), r, o)
  {
    MapSnoc(l.outcomes, rs, r, o);
    MapSnoc(l.place, rs, r, Settled);
    assert l.settled + (rs + [r]) == l.settled + rs + [r];
  }

  lemma RejectPendingSnoc(l: Ledger, rs: seq<RequestId>, r: RequestId)
    ensures RejectPending(l, rs + [r])
         == RejectOne(RejectPending(l, rs).(rpcTimers := RejectPending(l, rs).rpcTimers - {r}), r, WorkerError)
  {
    SetOfSnoc(rs, r);
    assert l.rpcTimers - SetOf(rs + [r]) == l.rpcTimers - SetOf(rs) - {r};
    RejectAllSnoc(l.(rpcTimers := l.rpcTimers - SetOf(rs + [r])), rs, r, WorkerError);
  }

  lemma RejectQueueSnoc(l: Ledger, rs: seq<RequestId>, r: RequestId)
    ensures RejectQueue(l, rs + [r])
         == RejectOne(RejectQueue(l, rs).(queueTimers := RejectQueue(l, rs).queueTimers - {r}), r, WorkerError)
  {
    SetOfSnoc(rs, r);
    assert l.queueTimers - SetOf(rs + [r]) == l.queueTimers - SetOf(rs) - {r};
    RejectAllSnoc(l.(queueTimers := l.queueTimers - SetOf(rs + [r])), rs, r, WorkerError);
  }

  lemma RejectNone(l: Ledger)
    ensures RejectPending(l, []) == l && RejectQueue(l, []) == l
  {
    assert l.rpcTimers - SetOf([]) == l.rpcTimers && l.queueTimers - SetOf([]) == l.queueTimers;
    assert l.outcomes + Each([], WorkerError) == l.outcomes && l.place + Each([], Settled) == l.place;
    assert l.settled + [] == l.settled;
  }

  /** One turn of the filter for stale workers. */
  lemma StaleStep(p: Pool, ws: seq<WorkerId>, i: nat, id: Identity, stale: seq<WorkerId>)
    requires i < |ws| && forall w :: w in ws ==> w in p.workers
    ensures stale + Stale(p, ws[i..], id)
         == (if p.workers[ws[i]].pending == [] && !RunsAs(p.workers[ws[i]], id) then stale + [ws[i]] else stale)
            + Stale(p, ws[i + 1..], id)
  {
    assert ws[i..][0] == ws[i] && ws[i..][1..] == ws[i + 1..];
    var rest := Stale(p, ws[i + 1..], id);
    assert stale + ([ws[i]] + rest) == (stale + [ws[i]]) + rest && [] + rest == rest;
  }

  class SubnodePool {
    const cfg: Config
    var subnodes: map<string, NodeId>
    var nodes: seq<Subnode>
    var workers: map<WorkerId, Worker>
    var ledger: Ledger
    var shuttingDown: bool

    ghost function State(): (p: Pool)
      reads this
    {
      Pool(cfg, subnodes, nodes, workers, ledger, shuttingDown)
    }

    constructor (cfg: Config)
      requires 1 <= cfg.min <= cfg.max
      ensures Initial(State()) && this.cfg == cfg
    {
      this.cfg := cfg;
      subnodes, nodes, workers, ledger, shuttingDown := map[], [], map[], NO_REQUESTS, false;
    }

    /** Ends a request a worker was sent, or one that was queued. */
    method RejectPendingRequest(r: RequestId)
      modifies this`ledger
      ensures ledger == RejectOne(old(ledger).(rpcTimers := old(ledger).rpcTimers - {r}), r, WorkerError)
    {
      ledger := ledger.(rpcTimers := ledger.rpcTimers - {r});
      ledger := RejectOne(ledger, r, WorkerError);
    }

    method RejectQueuedRequest(r: RequestId)
      modifies this`ledger
      ensures ledger == RejectOne(old(ledger).(queueTimers := old(ledger).queueTimers - {r}), r, WorkerError)
    {
      ledger := ledger.(queueTimers := ledger.queueTimers - {r});
      ledger := RejectOne(ledger, r, WorkerError);
    }

    method RejectQueued(n: NodeId)
      requires n < |nodes|
      modifies this`ledger, this`nodes
      ensures State() == DropQueue(old(State()), n)
    {
      var queue, i := nodes[n].queue, 0;
      RejectNone(ledger);
      while i < |queue|
        invariant 0 <= i <= |queue| && nodes == old(nodes)
        invariant ledger == RejectQueue(old(ledger), queue[..i])
      {
        assert queue[..i + 1] == queue[..i] + [queue[i]];
        RejectQueueSnoc(old(ledger), queue[..i], queue[i]);
        RejectQueuedRequest(queue[i]);
        i := i + 1;
      }
      assert queue[..i] == queue;
      nodes := nodes[n := nodes[n].(queue := [])];
    }

    method Unlist(w: WorkerId)
      requires Known(State(), w)
      modifies this`ledger, this`nodes, this`workers
      ensures State() == SubnodeModel.Unlist(old(State()), w)
    {
      var k := workers[w];
      workers := workers[w := k.(removed := true, idleTimer := false)];
      nodes := nodes[k.node := nodes[k.node].(workers := Without(nodes[k.node].workers, w))];
      var i := 0;
      RejectNone(ledger);
      ghost var ws, ns := workers, nodes;
      while i < |k.pending|
        invariant 0 <= i <= |k.pending| && workers == ws && nodes == ns
        invariant ledger == RejectPending(old(ledger), k.pending[..i])
      {
        assert k.pending[..i + 1] == k.pending[..i] + [k.pending[i]];
        RejectPendingSnoc(old(ledger), k.pending[..i], k.pending[i]);
        RejectPendingRequest(k.pending[i]);
        i := i + 1;
      }
      assert k.pending[..i] == k.pending;
    }

    method RemoveWorker(w: WorkerId)
      requires Known(State(), w)
      modifies this
      ensures State() == SubnodeModel.RemoveWorker(old(State()), w)
    {
      if workers[w].removed { return; }
      var n := workers[w].node;
      Unlist(w);
      if nodes[n].workers == [] {
        RejectQueued(n);
        if nodes[n].user in subnodes && subnodes[nodes[n].user] == n { subnodes := subnodes - {nodes[n].user}; }
      }
    }

    method RemoveAll(ws: seq<WorkerId>)
      requires forall w :: w in ws ==> Known(State(), w)
      modifies this
      ensures State() == SubnodeModel.RemoveAll(old(State()), ws)
    {
      var i := 0;
      while i < |ws|
        invariant 0 <= i <= |ws|
        invariant forall w :: w in ws ==> Known(State(), w)
        invariant SubnodeModel.RemoveAll(State(), ws[i..]) == SubnodeModel.RemoveAll(old(State()), ws)
      {
        assert ws[i..][1..] == ws[i + 1..];
        RemoveWorkerShrinks(State(), ws[i]);
        RemoveWorker(ws[i]);
        i := i + 1;
      }
    }

    method EvictSubnodeWorkers(user: string)
      requires Staffed(State())
      modifies this
      ensures State() == Evict(old(State()), user)
    {
      if user in subnodes {
        var ws := nodes[subnodes[user]].workers;
        assert NodeFits(subnodes[user], nodes[subnodes[user]], workers);
        RemoveAll(ws);
      }
    }

    method Resolve(r: RequestId, o: Outcome)
      modifies this`ledger
      ensures State() == Finish(old(State()), r, o)
    {
      ledger := Settle(ledger, r, o);
    }

    method SendRequest(w: WorkerId, r: RequestId, accepted: bool)
      requires w in workers
      modifies this`ledger, this`workers
      ensures State() == SubnodeModel.SendRequest(old(State()), w, r, accepted)
    {
      var k := workers[w];
      ledger := ledger.(sent := ledger.sent + [Send(r, w, !k.removed && accepted)]);
      if k.removed || !accepted {
        Resolve(r, WorkerError);
      } else {
        ledger := ledger.(rpcTimers := ledger.rpcTimers[r := w]);
        workers := workers[w := k.(pending := k.pending + [r])];
        ledger := Put(ledger, r, InFlight(w));
      }
    }

    /** The queue's timer for one request fired. */
    method ExpireQueued(n: NodeId, r: RequestId)
      requires n < |nodes|
      modifies this`ledger, this`nodes
      ensures State() == TimeOutQueued(old(State()), n, r)
    {
      if r !in nodes[n].queue { return; }
      nodes := nodes[n := nodes[n].(queue := Without(nodes[n].queue, r))];
      ledger := Grab(ledger, r);
      Resolve(r, TimedOut);
    }

    /** Gives a worker that finished a request the next one it may serve. */
    method OnRequestComplete(w: WorkerId, now: int, uidBlocked: nat -> bool)
      requires Free(State(), w)
      modifies this
      ensures State() == Drain(old(State()), w, now, uidBlocked)
    {
      FreeFacts(State(), w);
      while nodes[workers[w].node].queue != []
        invariant Free(State(), w) && Known(State(), w)
        invariant Drain(State(), w, now, uidBlocked) == Drain(old(State()), w, now, uidBlocked)
        decreases QueueLength(State(), w)
      {
        ghost var before := State();
        FreeFacts(before, w);
        DrainTurnShrinks(before, w, now, uidBlocked);
        DrainTurnSound(before, w, now, uidBlocked);
        ShiftSound(before, workers[w].node, {w});
        var n := workers[w].node;
        var r := nodes[n].queue[0];
        var id, deadline := ledger.identities[r], ledger.entries[r].deadline;
        nodes := nodes[n := nodes[n].(queue := nodes[n].queue[1..], shifted := nodes[n].shifted + [ledger.entries[r].arrival])];
        ledger := Grab(ledger, r);
        assert State() == Shift(before, n);
        if now > deadline {
          Resolve(r, TimedOut);
          FreeFacts(State(), w);
          continue;
        }
        if !RunsAs(workers[w], id) {
          RemoveWorker(w);
          Resolve(r, WorkerError);
          return;
        }
        if uidBlocked(id.uid) {
          assert Holds(IsStaffed, State(), {w});
          EvictSubnodeWorkers(id.user);
          Resolve(r, UidBlocked);
          FreeFacts(State(), w);
          continue;
        }
        ledger := Put(ledger, r, Draining(w));
        ledger := ledger.(draining := ledger.draining[r := w]);
        return;
      }
      workers := workers[w := workers[w].(idleTimer := workers[w].pending == [])];
    }

    // -------------------------------------------------------------------------
    // Handlers
    // -------------------------------------------------------------------------

    method Dispatch(r: RequestId, id: Identity, blocked: bool)
      requires Steady(State()) && Enabled(State(), Event.Dispatch(r, id, blocked))
      modifies this
      ensures State() == Next(old(State()), Event.Dispatch(r, id, blocked)) && Steady(State())
    {
      NextSteady(State(), Event.Dispatch(r, id, blocked));
      NewcomerSound(State(), r, id);
      ledger := ledger.(identities := ledger.identities[r := id], inHand := ledger.inHand + {r}, place := ledger.place[r := InHand]);
      if shuttingDown {
        Resolve(r, WorkerError);
      } else if blocked {
        assert Holds(IsStaffed, State(), {});
        EvictSubnodeWorkers(id.user);
        Resolve(r, UidBlocked);
      } else {
        ledger := Put(ledger, r, Checking);
        ledger := ledger.(checking := ledger.checking + {r});
      }
    }

    /** The group check of a new request ended. */
    method OnChecked(r: RequestId, verdict: Option<Outcome>)
      requires Steady(State()) && Enabled(State(), Checked(r, verdict))
      modifies this
      ensures State() == Next(old(State()), Checked(r, verdict)) && Steady(State())
    {
      NextSteady(State(), Checked(r, verdict));
      GrabCheckedSound(State(), r);
      var user := ledger.identities[r].user;
      ledger := Grab(ledger, r);
      if verdict.Some? {
        assert Holds(IsStaffed, State(), {});
        EvictSubnodeWorkers(user);
        Resolve(r, verdict.value);
        return;
      }
      if user !in subnodes && cfg.maxSubnodes > 0 && |subnodes| >= cfg.maxSubnodes {
        Resolve(r, SubnodeLimit);
        return;
      }
      JoinLine(user, r);
    }

    /** Puts a request in hand in line for its user's lock. */
    method JoinLine(user: string, r: RequestId)
      requires Sound(State(), {})
      modifies this
      ensures var e := Enroll(old(State()), user);
              State() == AwaitLock(e, e.subnodes[user], r)
    {
      EnrollSound(State(), user);
      if user !in subnodes {
        subnodes := subnodes[user := |nodes|];
        nodes := nodes + [Subnode(user, [], [], [], None, 0, [])];
      }
      var n := subnodes[user];
      nodes := nodes[n := nodes[n].(waiting := nodes[n].waiting + [r])];
      ledger := Put(ledger, r, Waiting(n));
    }

    /** The idle workers that run under other credentials than `id`. */
    method StaleWorkers(ws: seq<WorkerId>, id: Identity) returns (stale: seq<WorkerId>)
      requires forall w :: w in ws ==> w in workers
      ensures stale == Stale(State(), ws, id)
    {
      ghost var p := State();
      stale := [];
      var i := 0;
      while i < |ws|
        invariant 0 <= i <= |ws|
        invariant stale + Stale(p, ws[i..], id) == Stale(p, ws, id)
      {
        StaleStep(p, ws, i, id, stale);
        if workers[ws[i]].pending == [] && !RunsAs(workers[ws[i]], id) { stale := stale + [ws[i]]; }
        i := i + 1;
      }
    }

    method FindIdle(ws: seq<WorkerId>) returns (idle: Option<WorkerId>)
      ensures idle == FirstIdle(State(), ws)
      // The first of them that is ready and has nothing pending.
      ensures idle.None? ==> forall j :: 0 <= j < |ws| ==> !Idle(State(), ws[j])
      ensures idle.Some? ==> exists i :: 0 <= i < |ws| && ws[i] == idle.value && forall j :: 0 <= j < i ==> !Idle(State(), ws[j])
    {
      var i := 0;
      while i < |ws|
        invariant 0 <= i <= |ws|
        invariant forall j :: 0 <= j < i ==> !Idle(State(), ws[j])
        invariant FirstIdle(State(), ws[i..]) == FirstIdle(State(), ws)
      {
        assert ws[i..][0] == ws[i] && ws[i..][1..] == ws[i + 1..];
        if ws[i] in workers && workers[ws[i]].ready && workers[ws[i]].pending == [] { return Some(ws[i]); }
        i := i + 1;
      }
      return None;
    }

    /** Puts the subnode in order for the request that holds its lock. */
    method PrepareSubnode(n: NodeId, id: Identity)
      requires Sound(State(), {}) && n < |nodes|
      requires forall w :: w in nodes[n].workers ==> w in workers
      modifies this
      ensures State() == Prepare(old(State()), n, id)
    {
      var user := nodes[n].user;
      var stale := StaleWorkers(nodes[n].workers, id);
      StaleFacts(State(), nodes[n].workers, id);
      assert Holds(IsStaffed, State(), {}) && NodeFits(n, nodes[n], workers);
      RemoveAll(stale);
      subnodes := subnodes[user := n];
    }

    /** Finds a worker for a request in hand, starts one, or queues it. */
    method AssignRequest(n: NodeId, r: RequestId, forked: Option<WorkerId>, accepted: bool, now: int)
      requires n < |nodes| && r in ledger.identities
      modifies this
      ensures State() == Assign(old(State()), n, r, forked, accepted, now)
    {
      var idle := FindIdle(nodes[n].workers);
      if idle.Some? {
        SendRequest(idle.value, r, accepted);
        return;
      }
      var id, count := ledger.identities[r], |nodes[n].workers|;
      if count < cfg.max {
        if forked.None? {
          Resolve(r, SpawnFailed);
          return;
        }
        var tier := if count < cfg.min then Warm else Burst;
        workers := workers[forked.value := Worker(n, id.uid, id.gid, tier, false, false, false, [])];
        nodes := nodes[n := nodes[n].(spawning := Some(Spawn(r, forked.value)))];
        ledger := Put(ledger, r, Spawning(n));
        return;
      }
      var arrival := nodes[n].arrivals;
      nodes := nodes[n := nodes[n].(queue := nodes[n].queue + [r], arrivals := arrival + 1)];
      ledger := Put(ledger, r, Queued(n));
      ledger := ledger.(entries := ledger.entries[r := QueueEntry(now + cfg.queueTimeoutMs, arrival)],
                        queueTimers := ledger.queueTimers + {r});
    }

    /** The lock of subnode `n` passes to the first request that waits for it. */
    method AssignAndSend(n: NodeId, forked: Option<WorkerId>, accepted: bool, now: int)
      requires Steady(State()) && Enabled(State(), LockRuns(n, forked, accepted, now))
      modifies this
      ensures State() == Next(old(State()), LockRuns(n, forked, accepted, now)) && Steady(State())
    {
      NextSteady(State(), LockRuns(n, forked, accepted, now));
      TakeLockSound(State(), n);
      var r := nodes[n].waiting[0];
      var id := ledger.identities[r];
      nodes := nodes[n := nodes[n].(waiting := nodes[n].waiting[1..])];
      ledger := Grab(ledger, r);
      assert State() == TakeLock(old(State()), n);
      PrepareSound(State(), n, id);
      PrepareSubnode(n, id);
      AssignRequest(n, r, forked, accepted, now);
    }

    method OnSpawnReady(n: NodeId, accepted: bool)
      requires Steady(State()) && Enabled(State(), SpawnReady(n, accepted))
      modifies this
      ensures State() == Next(old(State()), SpawnReady(n, accepted)) && Steady(State())
    {
      NextSteady(State(), SpawnReady(n, accepted));
      var Spawn(r, w) := nodes[n].spawning.value;
      nodes := nodes[n := nodes[n].(spawning := None)];
      ledger := Grab(ledger, r);
      workers := workers[w := workers[w].(ready := true)];
      nodes := nodes[n := nodes[n].(workers := nodes[n].workers + [w])];
      SendRequest(w, r, accepted);
    }

    method OnSpawnFailed(n: NodeId, removed: bool)
      requires Steady(State()) && Enabled(State(), SpawnFails(n, removed))
      modifies this
      ensures State() == Next(old(State()), SpawnFails(n, removed)) && Steady(State())
    {
      NextSteady(State(), SpawnFails(n, removed));
      EndSpawnFrees(State(), n);
      var Spawn(r, w) := nodes[n].spawning.value;
      nodes := nodes[n := nodes[n].(spawning := None)];
      ledger := Grab(ledger, r);
      if removed { RemoveWorker(w); }
      Resolve(r, SpawnFailed);
    }

    /** A worker answered. */
    method OnResponse(w: WorkerId, r: RequestId, now: int, uidBlocked: nat -> bool)
      requires Steady(State()) && Enabled(State(), Response(w, r, now, uidBlocked))
      modifies this
      ensures State() == Next(old(State()), Response(w, r, now, uidBlocked)) && Steady(State())
    {
      NextSteady(State(), Response(w, r, now, uidBlocked));
      if r !in workers[w].pending {
        Widen(State(), {}, {w});
        assert {} + {w} == {w};
        FreeFacts(State(), w);
        RemoveWorker(w);
        return;
      }
      TakeBackSound(State(), w, r);
      workers := workers[w := workers[w].(pending := Without(workers[w].pending, r))];
      ledger := Grab(ledger, r);
      OnRequestComplete(w, now, uidBlocked);
      Resolve(r, Responded);
    }

    /** The group check of a drained request ended. */
    method OnDrainChecked(r: RequestId, verdict: Option<Outcome>, accepted: bool, now: int, uidBlocked: nat -> bool)
      requires Steady(State()) && Enabled(State(), DrainChecked(r, verdict, accepted, now, uidBlocked))
      modifies this
      ensures State() == Next(old(State()), DrainChecked(r, verdict, accepted, now, uidBlocked)) && Steady(State())
    {
      NextSteady(State(), DrainChecked(r, verdict, accepted, now, uidBlocked));
      FromDrain(State(), r);
      var w, user := ledger.draining[r], ledger.identities[r].user;
      ledger := Grab(ledger, r);
      if verdict.None? {
        SendRequest(w, r, accepted);
      } else {
        assert Holds(IsStaffed, State(), {w});
        EvictSound(State(), user, {w});
        EvictAndSettleSound(State(), user, r, verdict.value, {w});
        EvictSubnodeWorkers(user);
        Resolve(r, verdict.value);
        OnRequestComplete(w, now, uidBlocked);
      }
    }

    method OnRpcTimeout(r: RequestId)
      requires Steady(State()) && Enabled(State(), RpcTimesOut(r))
      modifies this
      ensures State() == Next(old(State()), RpcTimesOut(r)) && Steady(State())
    {
      NextSteady(State(), RpcTimesOut(r));
      var w := ledger.rpcTimers[r];
      assert Holds(IsStaffed, State(), {}) && WorkerFits(w, workers[w], nodes);
      workers := workers[w := workers[w].(pending := Without(workers[w].pending, r))];
      ledger := Grab(ledger, r);
      RemoveWorker(w);
      Resolve(r, TimedOut);
    }

    method OnIdleTimeout(w: WorkerId)
      requires Steady(State()) && Enabled(State(), IdleFires(w))
      modifies this
      ensures State() == Next(old(State()), IdleFires(w)) && Steady(State())
    {
      NextSteady(State(), IdleFires(w));
      assert Holds(IsStaffed, State(), {}) && WorkerFits(w, workers[w], nodes);
      workers := workers[w := workers[w].(idleTimer := false)];
      RemoveWorker(w);
    }

    // -------------------------------------------------------------------------
    // Shutting down
    // -------------------------------------------------------------------------

    method RejectQueues(order: seq<NodeId>)
      requires Steady(State()) && forall n :: n in order ==> n < |nodes|
      modifies this`ledger, this`nodes
      ensures State() == DropQueues(old(State()), order) && Steady(State()) && |nodes| == |old(nodes)|
    {
      var i := 0;
      while i < |order|
        invariant 0 <= i <= |order| && Steady(State()) && |nodes| == |old(nodes)|
        invariant DropQueues(State(), order[i..]) == DropQueues(old(State()), order)
      {
        assert order[i] in order && order[i..][0] == order[i] && order[i..][1..] == order[i + 1..];
        DropQueueSteady(State(), order[i]);
        RejectQueued(order[i]);
        i := i + 1;
      }
    }

    method IdleWorkers(ws: seq<WorkerId>) returns (idle: seq<WorkerId>)
      ensures idle == IdleOf(State(), ws)
    {
      ghost var p := State();
      idle := [];
      var i := 0;
      while i < |ws|
        invariant 0 <= i <= |ws|
        invariant idle + IdleOf(p, ws[i..]) == IdleOf(p, ws)
      {
        assert ws[i..][0] == ws[i] && ws[i..][1..] == ws[i + 1..];
        ghost var rest := IdleOf(p, ws[i + 1..]);
        assert idle + ([ws[i]] + rest) == (idle + [ws[i]]) + rest && [] + rest == rest;
        if ws[i] in workers && workers[ws[i]].pending == [] { idle := idle + [ws[i]]; }
        i := i + 1;
      }
    }

    method RemoveIdleWorkers(order: seq<NodeId>)
      requires Steady(State()) && forall n :: n in order ==> n < |nodes|
      modifies this
      ensures State() == RemoveIdle(old(State()), order) && Steady(State())
    {
      var i := 0;
      while i < |order|
        invariant 0 <= i <= |order| && Steady(State()) && |nodes| == |old(nodes)|
        invariant RemoveIdle(State(), order[i..]) == RemoveIdle(old(State()), order)
      {
        assert order[i] in order && order[i..][0] == order[i] && order[i..][1..] == order[i + 1..];
        var n := order[i];
        var idle := IdleWorkers(nodes[n].workers);
        IdleOfFacts(State(), nodes[n].workers);
        assert Holds(IsStaffed, State(), {}) && NodeFits(n, nodes[n], workers);
        ListedRemovedSteady(State(), n, idle);
        RemoveAllShrinks(State(), idle);
        RemoveAll(idle);
        i := i + 1;
      }
    }

    method Shutdown(order: seq<NodeId>)
      requires Steady(State()) && Enabled(State(), ShutdownBegins(order))
      modifies this
      ensures State() == Next(old(State()), ShutdownBegins(order)) && Steady(State())
    {
      Enumerated(State(), order);
      shuttingDown := true;
      RefusingSteady(old(State()));
      RejectQueues(order);
      RemoveIdleWorkers(order);
    }

    method RemoveEveryWorker(order: seq<NodeId>)
      requires Steady(State()) && forall n :: n in order ==> n < |nodes|
      modifies this
      ensures State() == RemoveEvery(old(State()), order) && Steady(State())
    {
      var i := 0;
      while i < |order|
        invariant 0 <= i <= |order| && Steady(State()) && |nodes| == |old(nodes)|
        invariant RemoveEvery(State(), order[i..]) == RemoveEvery(old(State()), order)
      {
        assert order[i] in order && order[i..][0] == order[i] && order[i..][1..] == order[i + 1..];
        var ws := nodes[order[i]].workers;
        assert Holds(IsStaffed, State(), {}) && NodeFits(order[i], nodes[order[i]], workers);
        ListedRemovedSteady(State(), order[i], ws);
        RemoveAllShrinks(State(), ws);
        RemoveAll(ws);
        i := i + 1;
      }
    }

    method ForceKillAll(order: seq<NodeId>)
      requires Steady(State()) && Enabled(State(), ForceKill(order))
      modifies this
      ensures State() == Next(old(State()), ForceKill(order)) && Steady(State())
    {
      Enumerated(State(), order);
      RemoveEveryWorker(order);
    }
  }

  /** The shutdown visits subnodes of the pool only. */
  lemma Enumerated(p: Pool, order: seq<NodeId>)
    requires Steady(p) && Enumerates(p, order)
    ensures forall n :: n in order ==> n < |p.nodes|
  {
    assert Holds(IsStaffed, p, {});
    assert forall n :: n in order ==> n in SetOf(order);
  }
}
