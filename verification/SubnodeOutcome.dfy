/**
 What becomes of the requests of the worker pool: of the one an event is about, and of all others.
 */
module SubnodeOutcomes {
  import opened Wrappers
  import opened SubnodeModel
  import opened SubnodeSafety
  import opened SubnodeEvents
  import opened SubnodeLogs
  import opened SubnodeRuns
  import opened SubnodeQueues

  // ---------------------------------------------------------------------------
  // What an event does to the request it is about
  // ---------------------------------------------------------------------------

  /** A spawn that ended well hands its request to the worker, which is listed now; one that failed fails it. */
  lemma SpawnEnds(states: seq<Pool>, events: seq<Event>, i: nat)
    requires IsRun(states, events) && i < |events| && (events[i].SpawnReady? || events[i].SpawnFails?)
    ensures var p, q, ev := states[i], states[i + 1], events[i];
            && ev.n < |p.nodes| && p.nodes[ev.n].spawning.Some?
            && var Spawn(r, w) := p.nodes[ev.n].spawning.value;
               && w in q.workers && ev.n < |q.nodes| && q.nodes[ev.n].spawning.None?
               && if ev.SpawnReady? then
                    Handed(q, w, r, ev.accepted) && q.workers[w].ready && q.nodes[ev.n].workers == p.nodes[ev.n].workers + [w]
                  else
                    SettledWith(q, r, SpawnFailed) && (q.workers[w].removed <==> ev.removed)
  {
    var p, ev := states[i], events[i];
    RunSteady(states, events, i);
    assert Enabled(p, ev);
    EndSpawnFrees(p, ev.n);
    var e, w := EndSpawn(p, ev.n), p.nodes[ev.n].spawning.value.worker;
    if ev.SpawnReady? {
      SendHands(Join(e, ev.n, w), w, p.nodes[ev.n].spawning.value.request, ev.accepted);
    } else {
      RemoveWorkerRemoves(e, w);
      RemoveWorkerSpares(e, w);
    }
  }

  /** A worker's answer settles the request it was sent, as answered; one that it was not sent removes it. */
  lemma ResponseAnswers(states: seq<Pool>, events: seq<Event>, i: nat)
    requires IsRun(states, events) && i < |events| && events[i].Response?
    ensures var p, q, ev := states[i], states[i + 1], events[i];
            && ev.w in p.workers && ev.w in q.workers
            && if ev.r in p.workers[ev.w].pending then SettledWith(q, ev.r, Responded) else q.workers[ev.w].removed
  {
    var p, ev := states[i], events[i];
    RunSteady(states, events, i);
    assert Enabled(p, ev);
    assert Holds(IsStaffed, p, {});
    assert WorkerFits(ev.w, p.workers[ev.w], p.nodes);
    NextGrows(p, ev);
    assert GrowsIn(Credentials, p, states[i + 1]);
    if ev.r !in p.workers[ev.w].pending { RemoveWorkerRemoves(p, ev.w); }
  }

  /** A worker that answered and finds its queue empty has its idle timer armed exactly when nothing is pending. */
  lemma AnsweredThenIdle(states: seq<Pool>, events: seq<Event>, i: nat)
    requires IsRun(states, events) && i < |events| && events[i].Response?
    requires var p, ev := states[i], events[i];
             && ev.w in p.workers && ev.r in p.workers[ev.w].pending && p.workers[ev.w].node < |p.nodes|
             && p.nodes[p.workers[ev.w].node].queue == []
    ensures var q, w := states[i + 1], events[i].w;
            w in q.workers && (q.workers[w].idleTimer <==> q.workers[w].pending == [])
            && q.workers[w].pending == Without(states[i].workers[w].pending, events[i].r)
  {
    assert Enabled(states[i], events[i]);
  }

  /** The end of the group check of a drained request: passed, it is handed to the drain's worker, or fails if that
      worker is gone; else it is settled with the verdict. */
  lemma DrainCheckEnds(states: seq<Pool>, events: seq<Event>, i: nat)
    requires IsRun(states, events) && i < |events| && events[i].DrainChecked?
    ensures var p, q, ev := states[i], states[i + 1], events[i];
            && ev.r in p.ledger.draining
            && var w := p.ledger.draining[ev.r];
               && w in p.workers
               && if ev.verdict.Some? then SettledWith(q, ev.r, ev.verdict.value)
                  else Handed(q, w, ev.r, ev.accepted && !p.workers[w].removed)
  {
    var p, ev := states[i], events[i];
    RunSteady(states, events, i);
    assert Enabled(p, ev);
    var w, t := p.ledger.draining[ev.r], Take(p, ev.r);
    FromDrain(p, ev.r);
    if ev.verdict.Some? {
      var user := p.ledger.identities[ev.r].user;
      EvictSound(t, user, {w});
      EvictAndSettleSound(t, user, ev.r, ev.verdict.value, {w});
      EvictShrinks(t, user);
      DrainKeeps(Finish(Evict(t, user), ev.r, ev.verdict.value), w, ev.now, ev.uidBlocked, ev.r, ev.verdict.value);
    }
  }

  lemma SteadyKnown(p: Pool, w: WorkerId)
    requires Steady(p) && w in p.workers
    ensures Known(p, w)
  {
    assert Holds(IsStaffed, p, {});
    assert WorkerFits(w, p.workers[w], p.nodes);
  }

  /** A request that is not answered in time is settled as timed out, and its worker removed. */
  lemma RpcTimerFires(states: seq<Pool>, events: seq<Event>, i: nat)
    requires IsRun(states, events) && i < |events| && events[i].RpcTimesOut?
    ensures var p, q, r := states[i], states[i + 1], events[i].r;
            && r in p.ledger.rpcTimers && SettledWith(q, r, TimedOut)
            && p.ledger.rpcTimers[r] in q.workers && q.workers[p.ledger.rpcTimers[r]].removed
  {
    var p, r := states[i], events[i].r;
    RunSteady(states, events, i);
    assert Enabled(p, events[i]);
    var w := p.ledger.rpcTimers[r];
    SteadyKnown(p, w);
    var t := TakeBack(p, w, r);
    RemoveWorkerRemoves(t, w);
    assert SettledWith(Finish(RemoveWorker(t, w), r, TimedOut), r, TimedOut);
  }

  /** So is a request that is still queued when its queue timer fires. */
  lemma QueueTimerFires(states: seq<Pool>, events: seq<Event>, i: nat)
    requires IsRun(states, events) && i < |events| && events[i].QueueTimesOut?
    ensures var p, q, ev := states[i], states[i + 1], events[i];
            if InQueue(p, ev.n, ev.r) then SettledWith(q, ev.r, TimedOut) && q.workers == p.workers else q == p
  {
    assert Enabled(states[i], events[i]);
  }

  /** A worker whose idle timer fires or that exits is removed. */
  lemma WorkerEnds(states: seq<Pool>, events: seq<Event>, i: nat)
    requires IsRun(states, events) && i < |events| && (events[i].IdleFires? || events[i].Exits?)
    ensures events[i].w in states[i + 1].workers && states[i + 1].workers[events[i].w].removed
  {
    var p, w := states[i], events[i].w;
    RunSteady(states, events, i);
    assert Enabled(p, events[i]);
    SteadyKnown(p, w);
    if events[i].Exits? {
      RemoveWorkerRemoves(p, w);
    } else {
      RemoveWorkerRemoves(p.(workers := p.workers[w := p.workers[w].(idleTimer := false)]), w);
    }
  }

  // ---------------------------------------------------------------------------
  // What an event does to the others
  // ---------------------------------------------------------------------------

  /** An event that settles a request it is not about fails it, with its worker or its subnode. */
  lemma OthersFail(states: seq<Pool>, events: seq<Event>, i: nat, r: RequestId)
    requires IsRun(states, events) && i < |events|
    requires r !in About(states[i], events[i])
    ensures SparedOrFailed(states[i], states[i + 1], r)
  {
    var p, ev := states[i], events[i];
    assert FailsOthers(p, Next(p, ev), About(p, ev)) by {
      match ev
      case Dispatch(s, id, blocked) => ArriveFails(p, s, id, blocked);
      case Checked(s, verdict) => AdmitFails(p, s, verdict);
      case LockRuns(n, forked, accepted, now) => LockFails(p, n, forked, accepted, now);
      case SpawnReady(n, accepted) => SpawnEndFails(p, n, false, accepted);
      case SpawnFails(n, removed) => SpawnEndFails(p, n, removed, false);
      case Response(w, s, now, uidBlocked) => RespondFails(p, w, s, now, uidBlocked);
      case DrainChecked(s, verdict, accepted, now, uidBlocked) => ResumeFails(p, s, verdict, accepted, now, uidBlocked);
      case RpcTimesOut(s) => TimeOutFails(p, p.ledger.rpcTimers[s], s);
      case QueueTimesOut(n, s) =>
      case IdleFires(w) => FireIdleFails(p, w);
      case Exits(w) => RemoveWorkerFails(p, w, {});
      case ShutdownBegins(order) => ShutdownFails(p, order);
      case ForceKill(order) => RemoveEveryFails(p, order, {});
    }
  }

  /** Removing a live worker takes it off its subnode and fails what it was sent. When it was the last, what is
      queued fails too and the subnode leaves the pool; nothing else changes. */
  lemma WorkerRemoved(p: Pool, w: WorkerId, exempt: set<WorkerId>)
    requires Sound(p, exempt) && Known(p, w) && !p.workers[w].removed
    ensures var q, n := RemoveWorker(p, w), p.workers[w].node;
            var s, t := p.nodes[n], q.nodes[n];
            && q.nodes == p.nodes[n := t] && q.workers == p.workers[w := q.workers[w]] && q.workers[w].removed
            && (forall v :: v in t.workers <==> v in s.workers && v != w)
            && (forall r :: r in p.workers[w].pending ==> SettledWith(q, r, WorkerError))
            && (forall r :: r in s.queue && t.workers == [] ==> SettledWith(q, r, WorkerError))
            && t.queue == (if t.workers == [] then [] else s.queue)
            && q.subnodes == if t.workers == [] && s.user in p.subnodes && p.subnodes[s.user] == n then p.subnodes - {s.user} else p.subnodes
  {
    Unpack(p, exempt);
    WithoutFacts(p.nodes[p.workers[w].node].workers, w);
    UnlistSettles(p, w);
    CloseSettles(Unlist(p, w), p.workers[w].node);
    CloseFails(Unlist(p, w), p.workers[w].node, {});
    forall r | r in p.workers[w].pending ensures SettledWith(RemoveWorker(p, w), r, WorkerError) {
      assert SparedOrFailed(Unlist(p, w), RemoveWorker(p, w), r);
    }
  }

  lemma UnlistSettles(p: Pool, w: WorkerId)
    requires Known(p, w)
    ensures forall r :: r in p.workers[w].pending ==> SettledWith(Unlist(p, w), r, WorkerError)
  {
  }

  lemma CloseSettles(p: Pool, n: NodeId)
    requires n < |p.nodes|
    ensures forall r :: r in p.nodes[n].queue && p.nodes[n].workers == [] ==> SettledWith(CloseIfEmpty(p, n), r, WorkerError)
  {
  }

  // ---------------------------------------------------------------------------
  // Shutting down
  // ---------------------------------------------------------------------------

  lemma {:induction false} DropQueuesDrops(p: Pool, order: seq<NodeId>, n: NodeId, r: RequestId)
    requires n in order && InQueue(p, n, r)
    ensures SettledWith(DropQueues(p, order), r, WorkerError)
    decreases |order|
  {
    var d := DropQueue(p, order[0]);
    if order[0] == n {
      assert SettledWith(d, r, WorkerError);
      DropQueuesFails(d, order[1..], {});
      assert SparedOrFailed(d, DropQueues(d, order[1..]), r);
    } else {
      assert InQueue(d, n, r);
      DropQueuesDrops(d, order[1..], n, r);
    }
  }

  lemma {:induction false} DropQueuesKeeps(p: Pool, order: seq<NodeId>)
    ensures var q := DropQueues(p, order);
            && q.workers == p.workers && |q.nodes| == |p.nodes| && q.shuttingDown == p.shuttingDown
            && forall n :: 0 <= n < |p.nodes| ==> q.nodes[n].workers == p.nodes[n].workers
    decreases |order|
  {
    if order != [] { DropQueuesKeeps(DropQueue(p, order[0]), order[1..]); }
  }

  /** Removing the workers `ws` of subnode `m` removes those and no others. */
  lemma RemovesListed(p: Pool, m: NodeId, ws: seq<WorkerId>, w: WorkerId)
    requires Steady(p) && m < |p.nodes| && (forall v :: v in ws ==> v in p.nodes[m].workers) && w in p.workers
    ensures Steady(RemoveAll(p, ws)) && |RemoveAll(p, ws).nodes| == |p.nodes| && w in RemoveAll(p, ws).workers
    ensures if w in ws then RemoveAll(p, ws).workers[w].removed else RemoveAll(p, ws).workers[w] == p.workers[w]
  {
    ListedRemovedSteady(p, m, ws);
    RemoveAllSpares(p, ws);
    Unpack(p, {});
    assert NodeFits(m, p.nodes[m], p.workers);
    if w in ws { RemoveAllRemoves(p, ws, w); }
  }

  /** A live worker is in the list of its subnode and in no other. */
  lemma ListedThere(p: Pool, w: WorkerId)
    requires Steady(p) && w in p.workers && p.workers[w].ready && !p.workers[w].removed
    ensures forall m :: InList(p, m, w) <==> m == p.workers[w].node
  {
    assert Holds(IsStaffed, p, {});
    assert WorkerFits(w, p.workers[w], p.nodes);
    assert forall m :: 0 <= m < |p.nodes| ==> NodeFits(m, p.nodes[m], p.workers);
  }

  lemma {:induction false} StaysRemoved(p: Pool, order: seq<NodeId>, w: WorkerId)
    requires Steady(p) && w in p.workers && p.workers[w].removed
    ensures w in RemoveIdle(p, order).workers && RemoveIdle(p, order).workers[w].removed
    ensures w in RemoveEvery(p, order).workers && RemoveEvery(p, order).workers[w].removed
    decreases |order|
  {
    if order != [] {
      if order[0] < |p.nodes| {
        var ws := p.nodes[order[0]].workers;
        IdleOfFacts(p, ws);
        RemovesListed(p, order[0], IdleOf(p, ws), w);
        RemovesListed(p, order[0], ws, w);
        StaysRemoved(RemoveAll(p, IdleOf(p, ws)), order[1..], w);
        StaysRemoved(RemoveAll(p, ws), order[1..], w);
      } else {
        StaysRemoved(p, order[1..], w);
      }
    }
  }

  lemma {:induction false} RemoveIdleRemoves(p: Pool, order: seq<NodeId>, w: WorkerId)
    requires Steady(p) && w in p.workers && p.workers[w].ready && !p.workers[w].removed && p.workers[w].node in order
    ensures var q := RemoveIdle(p, order);
            && w in q.workers
            && if p.workers[w].pending == [] then q.workers[w].removed else q.workers[w] == p.workers[w]
    decreases |order|
  {
    ListedThere(p, w);
    RemoveIdleKeepsBusy(p, order, w);
    var m := order[0];
    assert InList(p, m, w) <==> m == p.workers[w].node;
    if m < |p.nodes| {
      var ws := IdleOf(p, p.nodes[m].workers);
      var q := RemoveAll(p, ws);
      IdleOfFacts(p, p.nodes[m].workers);
      RemovesListed(p, m, ws, w);
      if p.workers[w].pending == [] {
        if m == p.workers[w].node { StaysRemoved(q, order[1..], w); } else { RemoveIdleRemoves(q, order[1..], w); }
      }
    } else if p.workers[w].pending == [] {
      RemoveIdleRemoves(p, order[1..], w);
    }
  }

  lemma {:induction false} RemoveIdleKeepsBusy(p: Pool, order: seq<NodeId>, w: WorkerId)
    requires Steady(p) && w in p.workers
    ensures var q := RemoveIdle(p, order);
            && w in q.workers
            && (p.workers[w].pending != [] ==> q.workers[w] == p.workers[w])
    decreases |order|
  {
    if order != [] {
      if order[0] < |p.nodes| {
        var ws := IdleOf(p, p.nodes[order[0]].workers);
        IdleOfFacts(p, p.nodes[order[0]].workers);
        RemovesListed(p, order[0], ws, w);
        RemoveIdleKeepsBusy(RemoveAll(p, ws), order[1..], w);
      } else {
        RemoveIdleKeepsBusy(p, order[1..], w);
      }
    }
  }

  lemma {:induction false} RemoveEveryRemoves(p: Pool, order: seq<NodeId>, w: WorkerId)
    requires Steady(p) && w in p.workers && p.workers[w].ready && !p.workers[w].removed && p.workers[w].node in order
    ensures w in RemoveEvery(p, order).workers && RemoveEvery(p, order).workers[w].removed
    decreases |order|
  {
    ListedThere(p, w);
    var m := order[0];
    assert InList(p, m, w) <==> m == p.workers[w].node;
    if m < |p.nodes| {
      var ws := p.nodes[m].workers;
      RemovesListed(p, m, ws, w);
      if m == p.workers[w].node { StaysRemoved(RemoveAll(p, ws), order[1..], w); }
      else { RemoveEveryRemoves(RemoveAll(p, ws), order[1..], w); }
    } else {
      RemoveEveryRemoves(p, order[1..], w);
    }
  }

  /** From when the pool shuts down it takes no new request; what is queued fails, idle workers are removed and
      busy ones stay; the end of the grace period removes those too. */
  lemma PoolShutsDown(states: seq<Pool>, events: seq<Event>, i: nat, user: string)
    requires IsRun(states, events) && i < |events| && (events[i].ShutdownBegins? || events[i].ForceKill?)
    requires user in states[i].subnodes
    ensures var p, q, n := states[i], states[i + 1], states[i].subnodes[user];
            && n < |p.nodes| && q.shuttingDown
            && (events[i].ShutdownBegins? ==> forall r :: InQueue(p, n, r) ==> SettledWith(q, r, WorkerError))
            && (forall w :: w in p.nodes[n].workers ==>
                  w in p.workers && w in q.workers
                  && if events[i].ForceKill? || p.workers[w].pending == [] then q.workers[w].removed
                     else q.workers[w] == p.workers[w])
  {
    var p, ev, n := states[i], events[i], states[i].subnodes[user];
    RunSteady(states, events, i);
    assert Enabled(p, ev);
    Unpack(p, {});
    assert n in p.subnodes.Values && n in SetOf(ev.order);
    assert NodeFits(n, p.nodes[n], p.workers);
    forall w | w in p.nodes[n].workers ensures WorkerFits(w, p.workers[w], p.nodes) {}
    if ev.ForceKill? {
      forall w | w in p.nodes[n].workers ensures w in states[i + 1].workers && states[i + 1].workers[w].removed {
        RemoveEveryRemoves(p, ev.order, w);
      }
      RemoveEveryKeepsState(p, ev.order);
    } else {
      BeginsShutdown(p, ev.order, n);
    }
  }

  lemma {:induction false} RemoveEveryKeepsState(p: Pool, order: seq<NodeId>)
    ensures RemoveEvery(p, order).shuttingDown == p.shuttingDown
    decreases |order|
  {
    if order != [] {
      if order[0] < |p.nodes| {
        RemoveAllSpares(p, p.nodes[order[0]].workers);
        RemoveEveryKeepsState(RemoveAll(p, p.nodes[order[0]].workers), order[1..]);
      } else {
        RemoveEveryKeepsState(p, order[1..]);
      }
    }
  }

  lemma {:induction false} RemoveIdleKeepsState(p: Pool, order: seq<NodeId>)
    ensures RemoveIdle(p, order).shuttingDown == p.shuttingDown
    decreases |order|
  {
    if order != [] {
      if order[0] < |p.nodes| {
        var ws := IdleOf(p, p.nodes[order[0]].workers);
        RemoveAllSpares(p, ws);
        RemoveIdleKeepsState(RemoveAll(p, ws), order[1..]);
      } else {
        RemoveIdleKeepsState(p, order[1..]);
      }
    }
  }

  lemma BeginsShutdown(p: Pool, order: seq<NodeId>, n: NodeId)
    requires Steady(p) && n in order && n < |p.nodes|
    requires forall w :: w in p.nodes[n].workers ==>
               w in p.workers && p.workers[w].node == n && p.workers[w].ready && !p.workers[w].removed
    ensures var q := RemoveIdle(DropQueues(p.(shuttingDown := true), order), order);
            && q.shuttingDown
            && (forall r :: InQueue(p, n, r) ==> SettledWith(q, r, WorkerError))
            && (forall w :: w in p.nodes[n].workers ==>
                  w in q.workers && if p.workers[w].pending == [] then q.workers[w].removed else q.workers[w] == p.workers[w])
  {
    var s := p.(shuttingDown := true);
    var d := DropQueues(s, order);
    RefusingSteady(p);
    DropQueuesSteady(s, order);
    DropQueuesKeeps(s, order);
    RemoveIdleKeepsState(d, order);
    RemoveIdleFails(d, order, {});
    forall r | InQueue(p, n, r) ensures SettledWith(RemoveIdle(d, order), r, WorkerError) {
      assert InQueue(s, n, r);
      DropQueuesDrops(s, order, n, r);
      assert SparedOrFailed(d, RemoveIdle(d, order), r);
    }
    forall w | w in p.nodes[n].workers
      ensures w in RemoveIdle(d, order).workers
              && if p.workers[w].pending == [] then RemoveIdle(d, order).workers[w].removed else RemoveIdle(d, order).workers[w] == p.workers[w]
    {
      RemoveIdleRemoves(d, order, w);
    }
  }
}
