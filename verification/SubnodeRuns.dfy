/**
 Whole events and whole runs of the worker pool.
 */
module SubnodeRuns {
  import opened Wrappers
  import opened SubnodeModel
  import opened SubnodeSafety
  import opened SubnodeEvents
  import opened SubnodeLogs

  // ---------------------------------------------------------------------------
  // The drain
  // ---------------------------------------------------------------------------

  /** Worker `w` finished a request and is looking for the next. */
  ghost predicate Free(p: Pool, w: WorkerId) { Sound(p, {w}) && w in p.workers && p.workers[w].ready }

  lemma FreeFacts(p: Pool, w: WorkerId)
    requires Free(p, w)
    ensures Known(p, w) && NotSpawning(p, w)
    ensures var s := p.nodes[p.workers[w].node];
            s.queue != [] ==> CanShift(p, w) && s.queue[0] !in p.ledger.inHand
  {
    Unpack(p, {w});
    ReadyNotSpawning(p, {w}, w);
    assert WorkerFits(w, p.workers[w], p.nodes);
    var n := p.workers[w].node;
    if p.nodes[n].queue != [] {
      var r := p.nodes[n].queue[0];
      assert Occurs(p, r, Queued(n)) && !Occurs(p, r, InHand);
      assert At(p.ledger, r, Queued(n));
    }
  }

  /** A turn that goes on leaves the worker free, one that stops leaves nothing undone. */
  lemma DrainTurnSound(p: Pool, w: WorkerId, now: int, uidBlocked: nat -> bool)
    requires Free(p, w) && CanShift(p, w)
    ensures var t := DrainTurn(p, w, now, uidBlocked);
            && (if t.Continue? then Free(t.pool, w) else Sound(t.pool, {}))
            && t.pool.ledger.inHand == p.ledger.inHand
  {
    var n := p.workers[w].node;
    var r, taken := p.nodes[n].queue[0], Shift(p, n);
    var id := p.ledger.identities[r];
    FreeFacts(p, w);
    ShiftSound(p, n, {w});
    assert taken.ledger.inHand - {r} == p.ledger.inHand;
    if now > p.ledger.entries[r].deadline {
      SettleSound(taken, r, TimedOut, {w});
    } else if !RunsAs(p.workers[w], id) {
      RemoveFreeSound(taken, w, r, WorkerError);
    } else if uidBlocked(id.uid) {
      EvictAndSettleSound(taken, id.user, r, UidBlocked, {w});
      EvictSound(taken, id.user, {w});
    } else {
      SuspendSound(taken, r, w);
    }
  }

  lemma RemoveFreeSound(p: Pool, w: WorkerId, r: RequestId, o: Outcome)
    requires Free(p, w) && r in p.ledger.inHand
    ensures Sound(Finish(RemoveWorker(p, w), r, o), {})
    ensures RemoveWorker(p, w).ledger.inHand == p.ledger.inHand
  {
    FreeFacts(p, w);
    RemoveWorkerSound(p, w, {w});
    RemoveWorkerSpares(p, w);
    RemoveWorkerRemoves(p, w);
    Narrow(RemoveWorker(p, w), w);
    SettleSound(RemoveWorker(p, w), r, o, {});
  }

  lemma {:induction false} DrainSound(p: Pool, w: WorkerId, now: int, uidBlocked: nat -> bool)
    requires Free(p, w)
    ensures Sound(Drain(p, w, now, uidBlocked), {}) && Drain(p, w, now, uidBlocked).ledger.inHand == p.ledger.inHand
    decreases QueueLength(p, w)
  {
    FreeFacts(p, w);
    if !CanShift(p, w) {
      ResetSound(p, w);
    } else {
      DrainTurnShrinks(p, w, now, uidBlocked);
      DrainTurnSound(p, w, now, uidBlocked);
      match DrainTurn(p, w, now, uidBlocked)
      case Stop(_) =>
      case Continue(q) => DrainSound(q, w, now, uidBlocked);
    }
  }

  // ---------------------------------------------------------------------------
  // Events
  // ---------------------------------------------------------------------------

  /** Between two events nothing is in hand. */
  ghost predicate Steady(p: Pool) { Sound(p, {}) && p.ledger.inHand == {} }

  lemma RespondSteady(p: Pool, w: WorkerId, r: RequestId, now: int, uidBlocked: nat -> bool)
    requires Steady(p) && w in p.workers && p.workers[w].ready && !p.workers[w].removed
    ensures Steady(Respond(p, w, r, now, uidBlocked))
  {
    if r in p.workers[w].pending {
      var t := TakeBack(p, w, r);
      TakeBackSound(p, w, r);
      DrainSound(t, w, now, uidBlocked);
      SettleSound(Drain(t, w, now, uidBlocked), r, Responded, {});
    } else {
      ReadyNotSpawning(p, {}, w);
      RemoveWorkerSound(p, w, {});
      RemoveWorkerSpares(p, w);
    }
  }

  lemma ResumeDrainSteady(p: Pool, r: RequestId, verdict: Option<Outcome>, accepted: bool, now: int, uidBlocked: nat -> bool)
    requires Steady(p) && r in p.ledger.draining && p.ledger.draining[r] in p.workers && r in p.ledger.identities
    ensures Steady(ResumeDrain(p, r, verdict, accepted, now, uidBlocked))
  {
    var w, q, user := p.ledger.draining[r], Take(p, r), p.ledger.identities[r].user;
    FromDrain(p, r);
    if verdict.None? {
      assert {} + {w} == {w};
      SendSound(q, w, r, accepted, {});
    } else {
      EvictShrinks(q, user);
      EvictSound(q, user, {w});
      EvictAndSettleSound(q, user, r, verdict.value, {w});
      DrainSound(Finish(Evict(q, user), r, verdict.value), w, now, uidBlocked);
    }
  }

  /** The worker of a suspended drain runs under the request's identity. */
  lemma FromDrain(p: Pool, r: RequestId)
    requires Steady(p) && r in p.ledger.draining
    ensures var w := p.ledger.draining[r];
            Sound(Take(p, r), {w}) && MayServe(Take(p, r), r, w) && w in p.workers && p.workers[w].ready
  {
    var w := p.ledger.draining[r];
    Unpack(p, {});
    assert MayServe(p, r, w) && p.workers[w].ready;
    assert Occurs(p, r, Draining(w)) && At(p.ledger, r, Draining(w));
    assert !Occurs(p, r, Checking);
    GrabSound(p, r, {w});
  }

  lemma TimeOutRpcSteady(p: Pool, r: RequestId)
    requires Steady(p) && r in p.ledger.rpcTimers
    ensures p.ledger.rpcTimers[r] in p.workers
    ensures Steady(TimeOutRpc(p, p.ledger.rpcTimers[r], r))
  {
    var w := p.ledger.rpcTimers[r];
    Unpack(p, {});
    assert At(p.ledger, r, InFlight(w)) && Occurs(p, r, InFlight(w));
    assert WorkerFits(w, p.workers[w], p.nodes);
    TakeBackSound(p, w, r);
    RemoveFreeSound(TakeBack(p, w, r), w, r, TimedOut);
  }

  lemma TimeOutQueuedSteady(p: Pool, n: NodeId, r: RequestId)
    requires Steady(p) && n < |p.nodes|
    ensures Steady(TimeOutQueued(p, n, r))
  {
    if r in p.nodes[n].queue {
      DequeueSound(p, n, r, {});
      SettleSound(Dequeue(p, n, r), r, TimedOut, {});
    }
  }

  lemma FireIdleSteady(p: Pool, w: WorkerId)
    requires Steady(p) && w in p.workers && p.workers[w].idleTimer
    ensures Steady(FireIdle(p, w))
  {
    var q := p.(workers := p.workers[w := p.workers[w].(idleTimer := false)]);
    Unpack(p, {});
    assert WorkerFits(w, p.workers[w], p.nodes);
    DisarmSound(p, w);
    ReadyNotSpawning(q, {}, w);
    RemoveWorkerSound(q, w, {});
    RemoveWorkerSpares(q, w);
  }

  lemma DisarmSound(p: Pool, w: WorkerId)
    requires Sound(p, {}) && w in p.workers
    ensures Sound(p.(workers := p.workers[w := p.workers[w].(idleTimer := false)]), {})
  {
    var q := p.(workers := p.workers[w := p.workers[w].(idleTimer := false)]);
    Orderly(p, {});
    DisarmPlaced(p, w);
    OrderedFrame(p, q);
    CalmSound(p, q, {}, {});
  }

  lemma DisarmPlaced(p: Pool, w: WorkerId)
    requires Placed(p) && w in p.workers
    ensures Placed(p.(workers := p.workers[w := p.workers[w].(idleTimer := false)]))
  {
    var q := p.(workers := p.workers[w := p.workers[w].(idleTimer := false)]);
    forall s, pl ensures Occurs(q, s, pl) <==> At(q.ledger, s, pl) {
      assert Occurs(p, s, pl) <==> At(p.ledger, s, pl);
    }
  }

  lemma ExitSteady(p: Pool, w: WorkerId)
    requires Steady(p) && Enabled(p, Exits(w))
    ensures Steady(RemoveWorker(p, w))
  {
    Unpack(p, {});
    assert forall n :: 0 <= n < |p.nodes| ==> NodeFits(n, p.nodes[n], p.workers);
    RemoveWorkerSound(p, w, {});
    RemoveWorkerSpares(p, w);
  }

  // ---------------------------------------------------------------------------
  // Shutting down
  // ---------------------------------------------------------------------------

  lemma DropQueueCalm(p: Pool, n: NodeId)
    ensures Calm(p, DropQueue(p, n))
    ensures forall v :: Engaged(p, v, {}) ==> Engaged(DropQueue(p, n), v, {})
  {
  }

  lemma DropQueueSteady(p: Pool, n: NodeId)
    requires Steady(p)
    ensures Steady(DropQueue(p, n))
  {
    Orderly(p, {});
    if n < |p.nodes| { RejectQueuePlaced(p, DropQueue(p, n), n); }
    DropQueueCalm(p, n);
    OrderedFrame(p, DropQueue(p, n));
    CalmSound(p, DropQueue(p, n), {}, {});
  }

  lemma {:induction false} DropQueuesSteady(p: Pool, order: seq<NodeId>)
    requires Steady(p)
    ensures Steady(DropQueues(p, order))
    decreases |order|
  {
    if order != [] {
      DropQueueSteady(p, order[0]);
      DropQueuesSteady(DropQueue(p, order[0]), order[1..]);
    }
  }

  lemma ListedRemovedSteady(p: Pool, n: NodeId, ws: seq<WorkerId>)
    requires Steady(p) && n < |p.nodes| && forall w :: w in ws ==> w in p.nodes[n].workers
    ensures Steady(RemoveAll(p, ws))
  {
    forall w | w in ws ensures NotSpawning(p, w) {
      Unpack(p, {});
      ListedNotSpawning(p, n, w);
    }
    RemoveAllSound(p, ws, {});
    RemoveAllSpares(p, ws);
  }

  lemma {:induction false} IdleOfFacts(p: Pool, ws: seq<WorkerId>)
    ensures forall w :: w in IdleOf(p, ws) <==> w in ws && w in p.workers && p.workers[w].pending == []
  {
    if ws != [] {
      IdleOfFacts(p, ws[1..]);
      assert ws == [ws[0]] + ws[1..];
    }
  }

  lemma {:induction false} RemoveIdleSteady(p: Pool, order: seq<NodeId>)
    requires Steady(p)
    ensures Steady(RemoveIdle(p, order))
    decreases |order|
  {
    if order != [] {
      if order[0] >= |p.nodes| {
        RemoveIdleSteady(p, order[1..]);
      } else {
        var ws := IdleOf(p, p.nodes[order[0]].workers);
        IdleOfFacts(p, p.nodes[order[0]].workers);
        ListedRemovedSteady(p, order[0], ws);
        RemoveIdleSteady(RemoveAll(p, ws), order[1..]);
      }
    }
  }

  lemma {:induction false} RemoveEverySteady(p: Pool, order: seq<NodeId>)
    requires Steady(p)
    ensures Steady(RemoveEvery(p, order))
    decreases |order|
  {
    if order != [] {
      if order[0] >= |p.nodes| {
        RemoveEverySteady(p, order[1..]);
      } else {
        var ws := p.nodes[order[0]].workers;
        ListedRemovedSteady(p, order[0], ws);
        RemoveEverySteady(RemoveAll(p, ws), order[1..]);
      }
    }
  }

  lemma RefusingSteady(p: Pool)
    requires Steady(p)
    ensures Steady(p.(shuttingDown := true))
  {
    var q := p.(shuttingDown := true);
    Orderly(p, {});
    RefusingPlaced(p);
    OrderedFrame(p, q);
    assert forall v :: Engaged(p, v, {}) ==> Engaged(q, v, {});
    CalmSound(p, q, {}, {});
  }

  lemma BeginShutdownSteady(p: Pool, order: seq<NodeId>)
    requires Steady(p)
    ensures Steady(RemoveIdle(DropQueues(p.(shuttingDown := true), order), order))
  {
    var q := p.(shuttingDown := true);
    RefusingSteady(p);
    DropQueuesSteady(q, order);
    RemoveIdleSteady(DropQueues(q, order), order);
  }

  lemma RefusingPlaced(p: Pool)
    requires Placed(p)
    ensures Placed(p.(shuttingDown := true))
  {
    var q := p.(shuttingDown := true);
    forall s, pl ensures Occurs(q, s, pl) <==> At(q.ledger, s, pl) {
      assert Occurs(p, s, pl) <==> At(p.ledger, s, pl);
    }
  }

  // ---------------------------------------------------------------------------
  // Runs
  // ---------------------------------------------------------------------------

  lemma NextSteady(p: Pool, ev: Event)
    requires Steady(p) && Enabled(p, ev)
    ensures Steady(Next(p, ev))
  {
    match ev
    case Dispatch(r, id, blocked) => ArriveSound(p, r, id, blocked);
    case Checked(r, verdict) => AdmitSound(p, r, verdict);
    case LockRuns(n, forked, accepted, now) => RunLockSound(p, n, forked, accepted, now);
    case SpawnReady(n, accepted) => ReadySound(p, n, accepted);
    case SpawnFails(n, removed) => FailSpawnSound(p, n, removed);
    case Response(w, r, now, uidBlocked) => RespondSteady(p, w, r, now, uidBlocked);
    case DrainChecked(r, verdict, accepted, now, uidBlocked) =>
      ResumeDrainSteady(p, r, verdict, accepted, now, uidBlocked);
    case RpcTimesOut(r) => TimeOutRpcSteady(p, r);
    case QueueTimesOut(n, r) => TimeOutQueuedSteady(p, n, r);
    case IdleFires(w) => FireIdleSteady(p, w);
    case Exits(w) => ExitSteady(p, w);
    case ShutdownBegins(order) => BeginShutdownSteady(p, order);
    case ForceKill(order) => RemoveEverySteady(p, order);
  }

  lemma InitialSteady(p: Pool)
    requires Initial(p)
    ensures Steady(p)
  {
    assert Placed(p) && Staffed(p) && WithinMax(p);
    Pack(p, {});
  }

  lemma {:induction false} RunSteady(states: seq<Pool>, events: seq<Event>, i: nat)
    requires IsRun(states, events) && i < |states|
    ensures Steady(states[i])
    decreases i
  {
    if i == 0 {
      InitialSteady(states[0]);
    } else {
      RunSteady(states, events, i - 1);
      NextSteady(states[i - 1], events[i - 1]);
    }
  }

  // ---------------------------------------------------------------------------
  // Main results
  // ---------------------------------------------------------------------------

  /** Every request that arrived is in exactly one place, with the timer that place calls for. */
  lemma InExactlyOnePlace(states: seq<Pool>, events: seq<Event>, i: nat, r: RequestId)
    requires IsRun(states, events) && i < |states| && r in states[i].ledger.identities
    ensures exists pl ::
              && Occurs(states[i], r, pl) && pl != InHand
              && (forall other :: Occurs(states[i], r, other) ==> other == pl)
              && (r in states[i].ledger.queueTimers <==> pl.Queued?)
              && (r in states[i].ledger.rpcTimers <==> pl.InFlight?)
  {
    var p := states[i];
    RunSteady(states, events, i);
    assert Holds(IsPlaced, p, {});
    var pl := p.ledger.place[r];
    assert At(p.ledger, r, pl) && Occurs(p, r, pl);
    assert forall other :: Occurs(p, r, other) ==> At(p.ledger, r, other);
  }

  /** What is settled keeps its outcome, as long as nothing is settled twice. */
  lemma SettledKeepsOutcome(p: Pool, q: Pool, r: RequestId)
    requires GrowsIn(Settlements, p, q) && GrowsIn(Verdicts, p, q) && NoDup(q.ledger.settled) && r in p.ledger.settled
    ensures r in q.ledger.settled && OutcomeOf(q, r) == OutcomeOf(p, r)
  {
    var from, log := |p.ledger.settled|, q.ledger.settled;
    var k :| 0 <= k < from && p.ledger.settled[k] == r;
    assert log[k] == r;
    forall m | 0 <= m < |log[from..]| ensures log[from..][m] != r { assert log[from..][m] == log[from + m]; }
    assert !SettledSince(p, q, r);
  }

  /** No request is settled twice: a settlement stays in the log, the log holds each request once, and its
      outcome stays. */
  lemma SettledAtMostOnce(states: seq<Pool>, events: seq<Event>, i: nat, j: nat)
    requires IsRun(states, events) && i <= j < |states|
    ensures states[i].ledger.settled <= states[j].ledger.settled
    ensures forall a, b :: 0 <= a < b < |states[j].ledger.settled| ==>
              states[j].ledger.settled[a] != states[j].ledger.settled[b]
    ensures forall r :: r in states[i].ledger.settled ==> OutcomeOf(states[j], r) == OutcomeOf(states[i], r)
  {
    RunSteady(states, events, j);
    RunGrows(states, events, i, j);
    assert Holds(IsPlaced, states[j], {});
    assert GrowsIn(Settlements, states[i], states[j]) && GrowsIn(Verdicts, states[i], states[j]);
    forall r | r in states[i].ledger.settled ensures OutcomeOf(states[j], r) == OutcomeOf(states[i], r) {
      SettledKeepsOutcome(states[i], states[j], r);
    }
  }

  /** Whatever was sent by step `i` went to a worker that runs, then and ever after, as its request's identity. */
  lemma SentOnlyToOwnIdentity(states: seq<Pool>, events: seq<Event>, i: nat, j: nat, k: nat)
    requires IsRun(states, events) && i <= j < |states| && k < |states[i].ledger.sent|
    ensures k < |states[j].ledger.sent| && states[j].ledger.sent[k] == states[i].ledger.sent[k]
    ensures var Send(r, w, _) := states[i].ledger.sent[k];
            && r in states[j].ledger.identities && w in states[j].workers
            && RunsAs(states[j].workers[w], states[j].ledger.identities[r])
  {
    RunSteady(states, events, j);
    RunGrows(states, events, i, j);
    assert Holds(IsMatched, states[j], {});
    assert GrowsIn(Sends, states[i], states[j]);
    assert MayServe(states[j], states[j].ledger.sent[k].request, states[j].ledger.sent[k].worker);
  }

  lemma NoOtherAnswers(p: Pool, ev: Event, r: RequestId)
    requires Enabled(p, ev)
    ensures !ev.Response? && Answered(Next(p, ev), r) ==> Answered(p, r)
  {
    NextGrows(p, ev);
    assert GrowsIn(Answers, p, Next(p, ev)) || ev.Response?;
  }

  /** A caller is given an answer only when the worker its request was sent to, one of its own identity,
      responded to it. */
  lemma AnsweredOnlyByItsWorker(states: seq<Pool>, events: seq<Event>, i: nat, r: RequestId)
    requires IsRun(states, events) && i < |events|
    requires Answered(states[i + 1], r) && !Answered(states[i], r)
    ensures var p, ev := states[i], events[i];
            && ev.Response? && ev.r == r && ev.w in p.workers && r in p.workers[ev.w].pending
            && p.workers[ev.w].ready && !p.workers[ev.w].removed && At(p.ledger, r, InFlight(ev.w))
  {
    var p, ev := states[i], events[i];
    RunSteady(states, events, i);
    NoOtherAnswers(p, ev, r);
    RespondExtends(p, ev.w, ev.r, ev.now, ev.uidBlocked);
    assert Holds(IsPlaced, p, {});
    assert Occurs(p, r, InFlight(ev.w));
  }

  /** Workers, with the one being spawned, never exceed the maximum; a queue has workers; and each of them is
      busy or draining, but for one that was refused the last thing it was sent. */
  lemma PoolBounds(states: seq<Pool>, events: seq<Event>, i: nat, n: NodeId)
    requires IsRun(states, events) && i < |states| && n < |states[i].nodes|
    ensures var p := states[i];
            var s := p.nodes[n];
            && Seats(s) <= p.cfg.max
            && (s.queue != [] ==> s.workers != [])
            && (s.queue != [] ==>
                  forall w :: w in s.workers && !Stalled(p.ledger.sent, w) ==>
                    w in p.workers && (p.workers[w].pending != [] || exists r :: r in p.ledger.draining && p.ledger.draining[r] == w))
  {
    var p := states[i];
    RunSteady(states, events, i);
    assert Holds(IsWithinMax, p, {}) && Holds(IsServed, p, {}) && Holds(IsBusy, p, {}) && Holds(IsStaffed, p, {});
    assert NodeFits(n, p.nodes[n], p.workers);
    forall w | w in p.nodes[n].workers && p.nodes[n].queue != [] && !Stalled(p.ledger.sent, w)
      ensures p.workers[w].pending != [] || exists r :: r in p.ledger.draining && p.ledger.draining[r] == w
    {
      assert Engaged(p, w, {});
    }
  }

  /** Requests leave a queue in the order they joined it, all before those still waiting. */
  lemma DequeuedInOrder(states: seq<Pool>, events: seq<Event>, i: nat, j: nat, n: NodeId)
    requires IsRun(states, events) && i <= j < |states| && n < |states[i].nodes|
    ensures n < |states[j].nodes| && states[i].nodes[n].shifted <= states[j].nodes[n].shifted
    ensures var s := states[j].nodes[n];
            && (forall a, b :: 0 <= a < b < |s.shifted| ==> s.shifted[a] < s.shifted[b])
            && (forall a, b :: 0 <= a < b < |s.queue| ==>
                  Arrival(states[j].ledger, s.queue[a]) < Arrival(states[j].ledger, s.queue[b]))
            && (forall a, r :: 0 <= a < |s.shifted| && r in s.queue ==> s.shifted[a] < Arrival(states[j].ledger, r))
  {
    RunSteady(states, events, j);
    RunGrows(states, events, i, j);
    assert GrowsIn(Shifts, states[i], states[j]);
    assert Holds(IsOrdered, states[j], {});
    assert OrderedNode(states[j].ledger, states[j].nodes[n]);
  }

  /** Why the promise that a queue keeps its workers busy leaves out the workers that were refused a send: a
      drain whose send is refused ends there, with its worker idle and the queue waiting. */
  lemma RefusedSendStalls(p: Pool, r: RequestId, now: int, uidBlocked: nat -> bool)
    requires Steady(p) && r in p.ledger.draining
    requires var w := p.ledger.draining[r];
             && w in p.workers && !p.workers[w].removed && p.workers[w].pending == []
             && p.workers[w].node < |p.nodes| && p.nodes[p.workers[w].node].queue != []
             && forall s :: s in p.ledger.draining && p.ledger.draining[s] == w ==> s == r
    ensures Enabled(p, DrainChecked(r, None, false, now, uidBlocked))
    ensures var q := Next(p, DrainChecked(r, None, false, now, uidBlocked));
            var w := p.ledger.draining[r];
            && q.nodes[p.workers[w].node].queue != [] && w in q.nodes[p.workers[w].node].workers
            && q.workers[w] == p.workers[w] && w !in q.ledger.draining.Values && Stalled(q.ledger.sent, w)
  {
    var w := p.ledger.draining[r];
    FromDrain(p, r);
    assert Holds(IsStaffed, p, {});
    assert WorkerFits(w, p.workers[w], p.nodes);
    assert r in p.ledger.identities by {
      assert Holds(IsPlaced, p, {});
      assert Occurs(p, r, Draining(w)) && At(p.ledger, r, Draining(w));
    }
  }
}
