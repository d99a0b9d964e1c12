/**
 What no event of the worker pool undoes, and what it does to the requests it is not about. What happened is
 kept in logs: what was settled and how, what was sent, what left each queue and in which order, who asked for
 what, and which credentials each worker runs under. Each log is only ever added to, whatever the event, and
 two events alone do more: a response answers a caller, and the lock lets a request join a queue. A lemma about
 one piece of code proves all of its logs together, behind a quantifier over them, so that the lemmas which only
 put pieces together need not look into any. A request that an event settles without being about it fails.
 */
module SubnodeLogs {
  import opened Wrappers
  import opened SubnodeModel
  import opened SubnodeSafety
  import opened SubnodeEvents

  datatype Log = Settings | Settlements | Verdicts | Sends | Shifts | Requests | Credentials | Homes | Answers | Queues

  ghost predicate GrowsIn(log: Log, p: Pool, q: Pool) {
    match log
    case Settings => q.cfg == p.cfg
    case Settlements => p.ledger.settled <= q.ledger.settled
    case Verdicts => forall r :: OutcomeOf(q, r) == OutcomeOf(p, r) || SettledSince(p, q, r)
    case Sends => p.ledger.sent <= q.ledger.sent
    case Shifts =>
      && |p.nodes| <= |q.nodes|
      && forall n :: 0 <= n < |p.nodes| ==> p.nodes[n].shifted <= q.nodes[n].shifted && q.nodes[n].user == p.nodes[n].user
    case Requests =>
      forall r :: r in p.ledger.identities ==>
        r in q.ledger.identities && q.ledger.identities[r] == p.ledger.identities[r]
    case Credentials => SameCredentials(p, q)
    case Homes => AtHome(p) ==> AtHome(q)
    case Answers => forall r :: Answered(q, r) ==> Answered(p, r)
    case Queues =>
      && q.ledger.entries == p.ledger.entries
      && forall n, r :: 0 <= n < |q.nodes| && r in q.nodes[n].queue ==> n < |p.nodes| && r in p.nodes[n].queue
  }

  /** Every user of the pool has the subnode of that name, and requests wait for the lock of their own user. */
  ghost predicate AtHome(p: Pool) {
    && (forall user :: user in p.subnodes ==> p.subnodes[user] < |p.nodes| && p.nodes[p.subnodes[user]].user == user)
    && (forall n, r :: 0 <= n < |p.nodes| && r in p.nodes[n].waiting ==>
          r in p.ledger.identities && p.ledger.identities[r].user == p.nodes[n].user)
  }

  function OutcomeOf(p: Pool, r: RequestId): Option<Outcome> {
    if r in p.ledger.outcomes then Some(p.ledger.outcomes[r]) else None
  }

  /** The log of settlements got request `r` after it was as `p` has it. */
  predicate SettledSince(p: Pool, q: Pool, r: RequestId) {
    |p.ledger.settled| <= |q.ledger.settled| && r in q.ledger.settled[|p.ledger.settled|..]
  }

  /** The caller of request `r` was given a worker's answer. */
  predicate Answered(p: Pool, r: RequestId) { r in p.ledger.outcomes && p.ledger.outcomes[r] == Responded }

  /** Settlements, sends and what left each queue are only added to; identities, credentials and deadlines
      stay; no caller is given an answer and no request joins a queue. */
  ghost predicate Grows(p: Pool, q: Pool) { forall log: Log :: GrowsIn(log, p, q) }

  /** The same, but for one log. */
  ghost predicate GrowsBut(but: Log, p: Pool, q: Pool) { forall log: Log :: log != but ==> GrowsIn(log, p, q) }

  /** The same, but for answers and queues. */
  ghost predicate Extends(p: Pool, q: Pool) {
    forall log: Log :: log != Answers && log != Queues ==> GrowsIn(log, p, q)
  }

  lemma SettledSinceFirst(p: Pool, q: Pool, r: Pool, s: RequestId)
    requires p.ledger.settled <= q.ledger.settled <= r.ledger.settled
    requires SettledSince(p, q, s) || SettledSince(q, r, s)
    ensures SettledSince(p, r, s)
  {
    var from, log := |p.ledger.settled|, r.ledger.settled;
    if SettledSince(p, q, s) {
      var k :| 0 <= k < |q.ledger.settled[from..]| && q.ledger.settled[from..][k] == s;
      assert log[from..][k] == log[from + k] == q.ledger.settled[from + k];
    } else {
      var later := |q.ledger.settled|;
      var k :| 0 <= k < |log[later..]| && log[later..][k] == s;
      assert log[from..][later - from + k] == log[later + k];
    }
  }

  lemma GrowsInTransitive(log: Log, p: Pool, q: Pool, r: Pool)
    requires GrowsIn(log, p, q) && GrowsIn(log, q, r)
    requires GrowsIn(Settlements, p, q) && GrowsIn(Settlements, q, r) && GrowsIn(Shifts, p, q)
    ensures GrowsIn(log, p, r)
  {
    if log == Verdicts {
      forall s ensures OutcomeOf(r, s) == OutcomeOf(p, s) || SettledSince(p, r, s) {
        if OutcomeOf(r, s) != OutcomeOf(p, s) { SettledSinceFirst(p, q, r, s); }
      }
    }
  }

  lemma ExtendsTransitive(p: Pool, q: Pool, r: Pool)
    requires Extends(p, q) && Extends(q, r)
    ensures Extends(p, r)
  {
    forall log: Log | log != Answers && log != Queues ensures GrowsIn(log, p, r) {
      assert GrowsIn(log, p, q) && GrowsIn(log, q, r);
      assert GrowsIn(Settlements, p, q) && GrowsIn(Settlements, q, r) && GrowsIn(Shifts, p, q);
      GrowsInTransitive(log, p, q, r);
    }
  }

  lemma GrowsTransitive(p: Pool, q: Pool, r: Pool)
    requires Grows(p, q) && Grows(q, r)
    ensures Grows(p, r)
  {
    forall log: Log ensures GrowsIn(log, p, r) {
      assert GrowsIn(log, p, q) && GrowsIn(log, q, r);
      assert GrowsIn(Settlements, p, q) && GrowsIn(Settlements, q, r) && GrowsIn(Shifts, p, q);
      GrowsInTransitive(log, p, q, r);
    }
  }

  lemma ThenGrowsBut(but: Log, p: Pool, q: Pool, r: Pool)
    requires Grows(p, q) && GrowsBut(but, q, r) && but != Settlements
    ensures GrowsBut(but, p, r)
  {
    forall log: Log | log != but ensures GrowsIn(log, p, r) {
      assert GrowsIn(log, p, q) && GrowsIn(log, q, r);
      assert GrowsIn(Settlements, p, q) && GrowsIn(Settlements, q, r) && GrowsIn(Shifts, p, q);
      GrowsInTransitive(log, p, q, r);
    }
  }

  lemma FinishFrame(p: Pool, r: RequestId, o: Outcome)
    requires o != Responded
    ensures Grows(p, Finish(p, r, o))
  {
  }

  lemma FinishGrows(p: Pool, q: Pool, r: RequestId, o: Outcome)
    requires Grows(p, q) && o != Responded
    ensures Grows(p, Finish(q, r, o))
  {
    FinishFrame(q, r, o);
    GrowsTransitive(p, q, Finish(q, r, o));
  }

  lemma UnlistGrows(p: Pool, w: WorkerId)
    requires Known(p, w)
    ensures Grows(p, Unlist(p, w))
  {
    var q := Unlist(p, w);
    forall log: Log ensures GrowsIn(log, p, q) {
      match log
      case Homes => SameHomes(p, q);
      case _ =>
    }
  }

  lemma SameHomes(p: Pool, q: Pool)
    requires q.subnodes == p.subnodes && q.ledger.identities == p.ledger.identities && |q.nodes| == |p.nodes|
    requires forall n :: 0 <= n < |p.nodes| ==> q.nodes[n].user == p.nodes[n].user && q.nodes[n].waiting == p.nodes[n].waiting
    ensures GrowsIn(Homes, p, q)
  {
  }

  lemma CloseGrows(p: Pool, n: NodeId)
    requires n < |p.nodes|
    ensures Grows(p, CloseIfEmpty(p, n))
  {
    var q := CloseIfEmpty(p, n);
    forall log: Log ensures GrowsIn(log, p, q) {
      match log
      case Settlements =>
      case Verdicts => if p.nodes[n].workers == [] { RejectVerdicts(p, q, n); }
      case _ =>
    }
  }

  lemma DropQueueGrows(p: Pool, n: NodeId)
    ensures Grows(p, DropQueue(p, n))
  {
    var q := DropQueue(p, n);
    forall log: Log ensures GrowsIn(log, p, q) {
      match log
      case Settlements =>
      case Homes => SameHomes(p, q);
      case Verdicts => if n < |p.nodes| { RejectVerdicts(p, q, n); }
      case _ =>
    }
  }

  lemma RejectVerdicts(p: Pool, q: Pool, n: NodeId)
    requires n < |p.nodes| && q.ledger == RejectQueue(p.ledger, p.nodes[n].queue)
    ensures GrowsIn(Verdicts, p, q)
  {
    var rs := p.nodes[n].queue;
    assert q.ledger.settled == p.ledger.settled + rs && q.ledger.outcomes == p.ledger.outcomes + Each(rs, WorkerError);
    assert q.ledger.settled[|p.ledger.settled|..] == rs;
    forall r ensures OutcomeOf(q, r) == OutcomeOf(p, r) || SettledSince(p, q, r) {
      assert r !in rs ==> r !in Each(rs, WorkerError);
    }
  }

  lemma RemoveWorkerGrows(p: Pool, w: WorkerId)
    ensures Grows(p, RemoveWorker(p, w))
  {
    if Known(p, w) && !p.workers[w].removed {
      UnlistGrows(p, w);
      CloseGrows(Unlist(p, w), p.workers[w].node);
      GrowsTransitive(p, Unlist(p, w), RemoveWorker(p, w));
    }
  }

  lemma {:induction false} RemoveAllGrows(p: Pool, ws: seq<WorkerId>)
    ensures Grows(p, RemoveAll(p, ws))
    decreases |ws|
  {
    if ws != [] {
      var q := RemoveWorker(p, ws[0]);
      RemoveWorkerGrows(p, ws[0]);
      RemoveAllGrows(q, ws[1..]);
      GrowsTransitive(p, q, RemoveAll(q, ws[1..]));
    }
  }

  lemma EvictGrows(p: Pool, user: string)
    ensures Grows(p, Evict(p, user))
  {
    if user in p.subnodes && p.subnodes[user] < |p.nodes| {
      RemoveAllGrows(p, p.nodes[p.subnodes[user]].workers);
    }
  }

  lemma SendGrows(p: Pool, w: WorkerId, r: RequestId, accepted: bool)
    requires w in p.workers
    ensures Grows(p, SendRequest(p, w, r, accepted))
  {
  }

  lemma ShiftGrows(p: Pool, n: NodeId)
    requires n < |p.nodes| && p.nodes[n].queue != [] && p.nodes[n].queue[0] in p.ledger.entries
    ensures Grows(p, Shift(p, n))
  {
  }

  lemma SuspendGrows(p: Pool, r: RequestId, w: WorkerId)
    ensures Grows(p, Suspend(p, r, w))
  {
  }

  lemma DrainTurnGrows(p: Pool, w: WorkerId, now: int, uidBlocked: nat -> bool)
    requires CanShift(p, w)
    ensures Grows(p, DrainTurn(p, w, now, uidBlocked).pool)
  {
    var n := p.workers[w].node;
    var r, taken := p.nodes[n].queue[0], Shift(p, n);
    var id := p.ledger.identities[r];
    ShiftGrows(p, n);
    if now > p.ledger.entries[r].deadline {
      FinishGrows(p, taken, r, TimedOut);
    } else if !RunsAs(p.workers[w], id) {
      RemoveWorkerGrows(taken, w);
      GrowsTransitive(p, taken, RemoveWorker(taken, w));
      FinishGrows(p, RemoveWorker(taken, w), r, WorkerError);
    } else if uidBlocked(id.uid) {
      EvictGrows(taken, id.user);
      GrowsTransitive(p, taken, Evict(taken, id.user));
      FinishGrows(p, Evict(taken, id.user), r, UidBlocked);
    } else {
      SuspendGrows(taken, r, w);
      GrowsTransitive(p, taken, Suspend(taken, r, w));
    }
  }

  lemma {:induction false} DrainGrows(p: Pool, w: WorkerId, now: int, uidBlocked: nat -> bool)
    requires w in p.workers
    ensures Grows(p, Drain(p, w, now, uidBlocked))
    decreases QueueLength(p, w)
  {
    if CanShift(p, w) {
      DrainTurnShrinks(p, w, now, uidBlocked);
      DrainTurnGrows(p, w, now, uidBlocked);
      match DrainTurn(p, w, now, uidBlocked)
      case Stop(_) =>
      case Continue(q) =>
        DrainGrows(q, w, now, uidBlocked);
        GrowsTransitive(p, q, Drain(q, w, now, uidBlocked));
    }
  }

  lemma TakeGrows(p: Pool, r: RequestId)
    ensures Grows(p, Take(p, r))
  {
  }

  lemma EnrollGrows(p: Pool, user: string)
    ensures Grows(p, Enroll(p, user))
  {
  }

  lemma AwaitLockGrows(p: Pool, n: NodeId, r: RequestId)
    requires AtHome(p) && n < |p.nodes| ==> r in p.ledger.identities && p.ledger.identities[r].user == p.nodes[n].user
    ensures Grows(p, AwaitLock(p, n, r))
  {
  }

  lemma AdmitGrows(p: Pool, r: RequestId, verdict: Option<Outcome>)
    requires r in p.ledger.identities && GroupVerdict(verdict)
    ensures Grows(p, Admit(p, r, verdict))
  {
    var user, q := p.ledger.identities[r].user, Take(p, r);
    TakeGrows(p, r);
    if verdict.Some? {
      EvictGrows(q, user);
      GrowsTransitive(p, q, Evict(q, user));
      FinishGrows(p, Evict(q, user), r, verdict.value);
    } else if AtCapacity(p, user) {
      FinishGrows(p, q, r, SubnodeLimit);
    } else {
      var e := Enroll(q, user);
      EnrollGrows(q, user);
      AwaitLockGrows(e, e.subnodes[user], r);
      GrowsTransitive(p, q, e);
      GrowsTransitive(p, e, AwaitLock(e, e.subnodes[user], r));
    }
  }

  lemma ForkGrows(p: Pool, n: NodeId, r: RequestId, w: WorkerId)
    requires n < |p.nodes| && r in p.ledger.identities && w !in p.workers
    ensures Grows(p, Fork(p, n, r, w))
  {
  }

  lemma EnqueueGrows(p: Pool, n: NodeId, r: RequestId, now: int)
    requires n < |p.nodes|
    ensures GrowsBut(Queues, p, Enqueue(p, n, r, now))
  {
  }

  lemma AssignGrows(p: Pool, n: NodeId, r: RequestId, forked: Option<WorkerId>, accepted: bool, now: int)
    requires n < |p.nodes| && r in p.ledger.identities && (forked.Some? ==> forked.value !in p.workers)
    ensures GrowsBut(Queues, p, Assign(p, n, r, forked, accepted, now))
  {
    var idle := FirstIdle(p, p.nodes[n].workers);
    if idle.Some? {
      SendGrows(p, idle.value, r, accepted);
    } else if |p.nodes[n].workers| >= p.cfg.max {
      EnqueueGrows(p, n, r, now);
    } else if forked.Some? {
      ForkGrows(p, n, r, forked.value);
    } else {
      FinishFrame(p, r, SpawnFailed);
    }
  }

  lemma TakeLockGrows(p: Pool, n: NodeId)
    requires n < |p.nodes| && p.nodes[n].waiting != []
    ensures Grows(p, TakeLock(p, n))
  {
  }

  lemma PrepareGrows(p: Pool, n: NodeId, id: Identity)
    requires n < |p.nodes| && forall w :: w in p.nodes[n].workers ==> w in p.workers
    ensures Grows(p, Prepare(p, n, id))
  {
    var ws := Stale(p, p.nodes[n].workers, id);
    RemoveAllGrows(p, ws);
    forall log: Log ensures GrowsIn(log, p, Prepare(p, n, id)) {
      assert GrowsIn(log, p, RemoveAll(p, ws)) && GrowsIn(Shifts, p, RemoveAll(p, ws));
    }
  }

  lemma RunLockGrows(p: Pool, n: NodeId, forked: Option<WorkerId>, accepted: bool, now: int)
    requires CanLock(p, n) && (forked.Some? ==> forked.value !in p.workers)
    ensures GrowsBut(Queues, p, RunLock(p, n, forked, accepted, now))
  {
    var t, r := TakeLock(p, n), p.nodes[n].waiting[0];
    var id := p.ledger.identities[r];
    var q := Prepare(t, n, id);
    TakeLockGrows(p, n);
    PrepareGrows(t, n, id);
    RemoveAllShrinks(t, Stale(t, t.nodes[n].workers, id));
    RemoveAllKeepsIdentities(t, Stale(t, t.nodes[n].workers, id));
    AssignGrows(q, n, r, forked, accepted, now);
    GrowsTransitive(p, t, q);
    ThenGrowsBut(Queues, p, q, Assign(q, n, r, forked, accepted, now));
  }

  lemma EndSpawnGrows(p: Pool, n: NodeId)
    requires n < |p.nodes| && p.nodes[n].spawning.Some?
    ensures Grows(p, EndSpawn(p, n))
  {
  }

  lemma JoinGrows(p: Pool, n: NodeId, w: WorkerId)
    requires n < |p.nodes| && w in p.workers
    ensures Grows(p, Join(p, n, w))
  {
  }

  lemma FailSpawnGrows(p: Pool, n: NodeId, removed: bool)
    requires n < |p.nodes| && p.nodes[n].spawning.Some?
    ensures Grows(p, FailSpawn(p, n, removed))
  {
    var Spawn(r, w) := p.nodes[n].spawning.value;
    var e := EndSpawn(p, n);
    EndSpawnGrows(p, n);
    RemoveWorkerGrows(e, w);
    GrowsTransitive(p, e, RemoveWorker(e, w));
    FinishGrows(p, if removed then RemoveWorker(e, w) else e, r, SpawnFailed);
  }

  lemma ArriveGrows(p: Pool, r: RequestId, id: Identity, blocked: bool)
    requires r !in p.ledger.identities
    ensures Grows(p, Arrive(p, r, id, blocked))
  {
    var q := Newcomer(p, r, id);
    NewcomerGrows(p, r, id);
    EvictGrows(q, id.user);
    GrowsTransitive(p, q, Evict(q, id.user));
    FinishGrows(p, q, r, WorkerError);
    FinishGrows(p, Evict(q, id.user), r, UidBlocked);
    CheckGrows(q, r);
    GrowsTransitive(p, q, Check(q, r));
    assert Arrive(p, r, id, blocked) == if p.shuttingDown then Finish(q, r, WorkerError)
                                        else if blocked then Finish(Evict(q, id.user), r, UidBlocked)
                                        else Check(q, r);
  }

  lemma NewcomerGrows(p: Pool, r: RequestId, id: Identity)
    requires r !in p.ledger.identities
    ensures Grows(p, Newcomer(p, r, id))
  {
  }

  lemma CheckGrows(p: Pool, r: RequestId)
    ensures Grows(p, Check(p, r))
  {
  }

  lemma ReadyGrows(p: Pool, n: NodeId, accepted: bool)
    requires n < |p.nodes| && p.nodes[n].spawning.Some? && p.nodes[n].spawning.value.worker in p.workers
    ensures Grows(p, Ready(p, n, accepted))
  {
    var Spawn(r, w) := p.nodes[n].spawning.value;
    var e := EndSpawn(p, n);
    var j := Join(e, n, w);
    EndSpawnGrows(p, n);
    JoinGrows(e, n, w);
    SendGrows(j, w, r, accepted);
    GrowsTransitive(p, e, j);
    GrowsTransitive(p, j, Ready(p, n, accepted));
  }

  lemma TakeBackGrows(p: Pool, w: WorkerId, r: RequestId)
    requires w in p.workers
    ensures Grows(p, TakeBack(p, w, r))
  {
  }

  /** Only the answered request's caller is given an answer. */
  lemma RespondExtends(p: Pool, w: WorkerId, r: RequestId, now: int, uidBlocked: nat -> bool)
    requires w in p.workers
    ensures GrowsBut(Answers, p, Respond(p, w, r, now, uidBlocked))
    ensures forall s :: Answered(Respond(p, w, r, now, uidBlocked), s) ==> Answered(p, s) || (s == r && r in p.workers[w].pending)
  {
    if r in p.workers[w].pending {
      var t, d := TakeBack(p, w, r), Drain(TakeBack(p, w, r), w, now, uidBlocked);
      TakeBackGrows(p, w, r);
      DrainGrows(t, w, now, uidBlocked);
      GrowsTransitive(p, t, d);
      AnswerExtends(p, d, r);
    } else {
      RemoveWorkerGrows(p, w);
      assert GrowsIn(Answers, p, RemoveWorker(p, w));
    }
  }

  lemma FinishButAnswers(p: Pool, r: RequestId)
    ensures GrowsBut(Answers, p, Finish(p, r, Responded))
  {
  }

  lemma AnswerExtends(p: Pool, d: Pool, r: RequestId)
    requires Grows(p, d)
    ensures GrowsBut(Answers, p, Finish(d, r, Responded))
    ensures forall s :: Answered(Finish(d, r, Responded), s) ==> Answered(p, s) || s == r
  {
    assert GrowsIn(Answers, p, d);
    FinishButAnswers(d, r);
    ThenGrowsBut(Answers, p, d, Finish(d, r, Responded));
  }

  lemma ResumeDrainGrows(p: Pool, r: RequestId, verdict: Option<Outcome>, accepted: bool, now: int, uidBlocked: nat -> bool)
    requires r in p.ledger.draining && p.ledger.draining[r] in p.workers && r in p.ledger.identities
    requires GroupVerdict(verdict)
    ensures Grows(p, ResumeDrain(p, r, verdict, accepted, now, uidBlocked))
  {
    var w, q, user := p.ledger.draining[r], Take(p, r), p.ledger.identities[r].user;
    TakeGrows(p, r);
    if verdict.None? {
      SendGrows(q, w, r, accepted);
      GrowsTransitive(p, q, SendRequest(q, w, r, accepted));
    } else {
      var e := Finish(Evict(q, user), r, verdict.value);
      EvictShrinks(q, user);
      EvictGrows(q, user);
      FinishGrows(q, Evict(q, user), r, verdict.value);
      DrainGrows(e, w, now, uidBlocked);
      GrowsTransitive(q, e, Drain(e, w, now, uidBlocked));
      GrowsTransitive(p, q, Drain(e, w, now, uidBlocked));
    }
  }

  lemma TimersGrow(p: Pool, w: WorkerId, r: RequestId)
    requires w in p.workers
    ensures Grows(p, TimeOutRpc(p, w, r)) && Grows(p, FireIdle(p, w))
  {
    var t, d := TakeBack(p, w, r), p.(workers := p.workers[w := p.workers[w].(idleTimer := false)]);
    TakeBackGrows(p, w, r);
    assert Grows(p, d);
    RemoveWorkerGrows(t, w);
    RemoveWorkerGrows(d, w);
    GrowsTransitive(p, t, RemoveWorker(t, w));
    GrowsTransitive(p, d, RemoveWorker(d, w));
    FinishGrows(p, RemoveWorker(t, w), r, TimedOut);
  }

  lemma {:induction false} DropQueuesGrows(p: Pool, order: seq<NodeId>)
    ensures Grows(p, DropQueues(p, order))
    decreases |order|
  {
    if order != [] {
      var d := DropQueue(p, order[0]);
      DropQueueGrows(p, order[0]);
      DropQueuesGrows(d, order[1..]);
      GrowsTransitive(p, d, DropQueues(d, order[1..]));
    }
  }

  lemma {:induction false} RemoveIdleGrows(p: Pool, order: seq<NodeId>)
    ensures Grows(p, RemoveIdle(p, order))
    decreases |order|
  {
    if order != [] {
      if order[0] >= |p.nodes| {
        RemoveIdleGrows(p, order[1..]);
      } else {
        var ws := IdleOf(p, p.nodes[order[0]].workers);
        RemoveAllGrows(p, ws);
        RemoveIdleGrows(RemoveAll(p, ws), order[1..]);
        GrowsTransitive(p, RemoveAll(p, ws), RemoveIdle(RemoveAll(p, ws), order[1..]));
      }
    }
  }

  lemma {:induction false} RemoveEveryGrows(p: Pool, order: seq<NodeId>)
    ensures Grows(p, RemoveEvery(p, order))
    decreases |order|
  {
    if order != [] {
      if order[0] >= |p.nodes| {
        RemoveEveryGrows(p, order[1..]);
      } else {
        var ws := p.nodes[order[0]].workers;
        RemoveAllGrows(p, ws);
        RemoveEveryGrows(RemoveAll(p, ws), order[1..]);
        GrowsTransitive(p, RemoveAll(p, ws), RemoveEvery(RemoveAll(p, ws), order[1..]));
      }
    }
  }

  /** No event takes anything back, and only a worker's response answers a request. */
  lemma NextGrows(p: Pool, ev: Event)
    requires Enabled(p, ev)
    ensures Extends(p, Next(p, ev))
    ensures forall log: Log ::
              GrowsIn(log, p, Next(p, ev)) || (log == Answers && ev.Response?) || (log == Queues && ev.LockRuns?)
  {
    match ev
    case Dispatch(r, id, blocked) => ArriveGrows(p, r, id, blocked);
    case Checked(r, verdict) => AdmitGrows(p, r, verdict);
    case LockRuns(n, forked, accepted, now) => RunLockGrows(p, n, forked, accepted, now);
    case SpawnReady(n, accepted) => ReadyGrows(p, n, accepted);
    case SpawnFails(n, removed) => FailSpawnGrows(p, n, removed);
    case Response(w, r, now, uidBlocked) => RespondExtends(p, w, r, now, uidBlocked);
    case DrainChecked(r, verdict, accepted, now, uidBlocked) => ResumeDrainGrows(p, r, verdict, accepted, now, uidBlocked);
    case RpcTimesOut(r) => TimersGrow(p, p.ledger.rpcTimers[r], r);
    case QueueTimesOut(n, r) => QueueTimerGrows(p, n, r);
    case IdleFires(w) => TimersGrow(p, w, 0);
    case Exits(w) => RemoveWorkerGrows(p, w);
    case ShutdownBegins(order) => BeginShutdownGrows(p, order);
    case ForceKill(order) => RemoveEveryGrows(p, order);
  }

  lemma QueueTimerGrows(p: Pool, n: NodeId, r: RequestId)
    requires n < |p.nodes|
    ensures Grows(p, TimeOutQueued(p, n, r))
  {
    WithoutWithin(p.nodes[n].queue, r);
    if r in p.nodes[n].queue {
      assert Grows(p, Dequeue(p, n, r));
      FinishGrows(p, Dequeue(p, n, r), r, TimedOut);
    }
  }

  lemma {:induction false} WithoutWithin(s: seq<nat>, x: nat)
    ensures forall y :: y in Without(s, x) ==> y in s
  {
    if s != [] {
      WithoutWithin(s[1..], x);
      assert s == [s[0]] + s[1..];
    }
  }

  lemma BeginShutdownGrows(p: Pool, order: seq<NodeId>)
    ensures Grows(p, RemoveIdle(DropQueues(p.(shuttingDown := true), order), order))
  {
    var q := p.(shuttingDown := true);
    assert Grows(p, q);
    DropQueuesGrows(q, order);
    RemoveIdleGrows(DropQueues(q, order), order);
    GrowsTransitive(q, DropQueues(q, order), RemoveIdle(DropQueues(q, order), order));
    GrowsTransitive(p, q, RemoveIdle(DropQueues(q, order), order));
  }

  lemma {:induction false} RunGrows(states: seq<Pool>, events: seq<Event>, i: nat, j: nat)
    requires IsRun(states, events) && i <= j < |states|
    ensures Extends(states[i], states[j])
    decreases j - i
  {
    if i < j {
      NextGrows(states[j - 1], events[j - 1]);
      RunGrows(states, events, i, j - 1);
      ExtendsTransitive(states[i], states[j - 1], states[j]);
    }
  }

  // ---------------------------------------------------------------------------
  // What an event does to the others
  // ---------------------------------------------------------------------------

  ghost predicate SettledWith(p: Pool, r: RequestId, o: Outcome) {
    r in p.ledger.settled && OutcomeOf(p, r) == Some(o)
  }

  /** Request `r` was left as it was, or failed with its worker or its subnode. */
  ghost predicate SparedOrFailed(p: Pool, q: Pool, r: RequestId) {
    || (OutcomeOf(q, r) == OutcomeOf(p, r) && (r in q.ledger.settled <==> r in p.ledger.settled))
    || SettledWith(q, r, WorkerError)
  }

  /** All but the requests `own` were. */
  ghost predicate FailsOthers(p: Pool, q: Pool, own: set<RequestId>) {
    && p.ledger.settled <= q.ledger.settled
    && forall r :: r !in own ==> SparedOrFailed(p, q, r)
  }

  lemma FailsOthersTransitive(p: Pool, q: Pool, s: Pool, own: set<RequestId>)
    requires FailsOthers(p, q, own) && FailsOthers(q, s, own)
    ensures FailsOthers(p, s, own)
  {
    forall r | r !in own ensures SparedOrFailed(p, s, r) {
      assert SparedOrFailed(p, q, r) && SparedOrFailed(q, s, r);
    }
  }

  lemma UnlistFails(p: Pool, w: WorkerId, own: set<RequestId>)
    requires Known(p, w)
    ensures FailsOthers(p, Unlist(p, w), own)
  {
  }

  lemma CloseFails(p: Pool, n: NodeId, own: set<RequestId>)
    requires n < |p.nodes|
    ensures FailsOthers(p, CloseIfEmpty(p, n), own)
  {
  }

  lemma RemoveWorkerFails(p: Pool, w: WorkerId, own: set<RequestId>)
    ensures FailsOthers(p, RemoveWorker(p, w), own)
  {
    if Known(p, w) && !p.workers[w].removed {
      UnlistFails(p, w, own);
      CloseFails(Unlist(p, w), p.workers[w].node, own);
      FailsOthersTransitive(p, Unlist(p, w), RemoveWorker(p, w), own);
    }
  }

  lemma {:induction false} RemoveAllFails(p: Pool, ws: seq<WorkerId>, own: set<RequestId>)
    ensures FailsOthers(p, RemoveAll(p, ws), own)
    decreases |ws|
  {
    if ws != [] {
      var q := RemoveWorker(p, ws[0]);
      RemoveWorkerFails(p, ws[0], own);
      RemoveAllFails(q, ws[1..], own);
      FailsOthersTransitive(p, q, RemoveAll(q, ws[1..]), own);
    }
  }

  lemma EvictFails(p: Pool, user: string, own: set<RequestId>)
    ensures FailsOthers(p, Evict(p, user), own)
  {
    if user in p.subnodes && p.subnodes[user] < |p.nodes| {
      RemoveAllFails(p, p.nodes[p.subnodes[user]].workers, own);
    }
  }

  lemma NothingSettled(p: Pool, q: Pool, own: set<RequestId>)
    requires q.ledger.settled == p.ledger.settled && q.ledger.outcomes == p.ledger.outcomes
    ensures FailsOthers(p, q, own)
  {
  }

  lemma FinishFails(p: Pool, q: Pool, r: RequestId, o: Outcome, own: set<RequestId>)
    requires FailsOthers(p, q, own) && r in own
    ensures FailsOthers(p, Finish(q, r, o), own)
  {
    forall s | s !in own ensures SparedOrFailed(p, Finish(q, r, o), s) { assert SparedOrFailed(p, q, s); }
  }

  lemma SendFails(p: Pool, w: WorkerId, r: RequestId, accepted: bool, own: set<RequestId>)
    requires w in p.workers && r in own
    ensures FailsOthers(p, SendRequest(p, w, r, accepted), own)
  {
  }

  lemma DrainTurnFails(p: Pool, w: WorkerId, now: int, uidBlocked: nat -> bool, own: set<RequestId>)
    requires CanShift(p, w) && p.nodes[p.workers[w].node].queue[0] in own
    ensures FailsOthers(p, DrainTurn(p, w, now, uidBlocked).pool, own)
  {
    var n := p.workers[w].node;
    var r, taken := p.nodes[n].queue[0], Shift(p, n);
    var id := p.ledger.identities[r];
    assert FailsOthers(p, taken, own);
    if now > p.ledger.entries[r].deadline {
      FinishFails(p, taken, r, TimedOut, own);
    } else if !RunsAs(p.workers[w], id) {
      RemoveWorkerFails(taken, w, own);
      FailsOthersTransitive(p, taken, RemoveWorker(taken, w), own);
      FinishFails(p, RemoveWorker(taken, w), r, WorkerError, own);
    } else if uidBlocked(id.uid) {
      EvictFails(taken, id.user, own);
      FailsOthersTransitive(p, taken, Evict(taken, id.user), own);
      FinishFails(p, Evict(taken, id.user), r, UidBlocked, own);
    }
  }

  lemma {:induction false} DrainFails(p: Pool, w: WorkerId, now: int, uidBlocked: nat -> bool, own: set<RequestId>)
    requires w in p.workers && (Known(p, w) ==> forall r :: r in p.nodes[p.workers[w].node].queue ==> r in own)
    ensures FailsOthers(p, Drain(p, w, now, uidBlocked), own)
    decreases QueueLength(p, w)
  {
    if CanShift(p, w) {
      DrainTurnShrinks(p, w, now, uidBlocked);
      DrainTurnFails(p, w, now, uidBlocked, own);
      match DrainTurn(p, w, now, uidBlocked)
      case Stop(_) =>
      case Continue(q) =>
        DrainTurnGrows(p, w, now, uidBlocked);
        assert GrowsIn(Queues, p, q);
        DrainFails(q, w, now, uidBlocked, own);
        FailsOthersTransitive(p, q, Drain(q, w, now, uidBlocked), own);
    }
  }

  lemma {:induction false} DropQueuesFails(p: Pool, order: seq<NodeId>, own: set<RequestId>)
    ensures FailsOthers(p, DropQueues(p, order), own)
    decreases |order|
  {
    if order != [] {
      var d := DropQueue(p, order[0]);
      DropQueueFails(p, order[0], own);
      DropQueuesFails(d, order[1..], own);
      FailsOthersTransitive(p, d, DropQueues(d, order[1..]), own);
    }
  }

  lemma DropQueueFails(p: Pool, n: NodeId, own: set<RequestId>)
    ensures FailsOthers(p, DropQueue(p, n), own)
  {
  }

  lemma {:induction false} RemoveIdleFails(p: Pool, order: seq<NodeId>, own: set<RequestId>)
    ensures FailsOthers(p, RemoveIdle(p, order), own)
    decreases |order|
  {
    if order != [] {
      if order[0] >= |p.nodes| {
        RemoveIdleFails(p, order[1..], own);
      } else {
        var q := RemoveAll(p, IdleOf(p, p.nodes[order[0]].workers));
        RemoveAllFails(p, IdleOf(p, p.nodes[order[0]].workers), own);
        RemoveIdleFails(q, order[1..], own);
        FailsOthersTransitive(p, q, RemoveIdle(q, order[1..]), own);
      }
    }
  }

  lemma {:induction false} RemoveEveryFails(p: Pool, order: seq<NodeId>, own: set<RequestId>)
    ensures FailsOthers(p, RemoveEvery(p, order), own)
    decreases |order|
  {
    if order != [] {
      if order[0] >= |p.nodes| {
        RemoveEveryFails(p, order[1..], own);
      } else {
        var q := RemoveAll(p, p.nodes[order[0]].workers);
        RemoveAllFails(p, p.nodes[order[0]].workers, own);
        RemoveEveryFails(q, order[1..], own);
        FailsOthersTransitive(p, q, RemoveEvery(q, order[1..]), own);
      }
    }
  }

  function QueueOf(p: Pool, w: WorkerId): set<RequestId> {
    if Known(p, w) then SetOf(p.nodes[p.workers[w].node].queue) else {}
  }

  /** The requests an event may settle in ways of their own: the one it is about, and those a drain may reach. */
  function About(p: Pool, ev: Event): set<RequestId>
    requires Enabled(p, ev)
  {
    match ev
    case Dispatch(r, _, _) => {r}
    case Checked(r, _) => {r}
    case LockRuns(n, _, _, _) => {p.nodes[n].waiting[0]}
    case SpawnReady(n, _) => {p.nodes[n].spawning.value.request}
    case SpawnFails(n, _) => {p.nodes[n].spawning.value.request}
    case Response(w, r, _, _) => {r} + QueueOf(p, w)
    case DrainChecked(r, _, _, _, _) => {r} + QueueOf(p, p.ledger.draining[r])
    case RpcTimesOut(r) => {r}
    case QueueTimesOut(_, r) => {r}
    case _ => {}
  }

  lemma ArriveFails(p: Pool, r: RequestId, id: Identity, blocked: bool)
    ensures FailsOthers(p, Arrive(p, r, id, blocked), {r})
  {
    var q := Newcomer(p, r, id);
    EvictFails(q, id.user, {r});
    FailsOthersTransitive(p, q, Evict(q, id.user), {r});
    FinishFails(p, q, r, WorkerError, {r});
    FinishFails(p, Evict(q, id.user), r, UidBlocked, {r});
  }

  lemma AdmitFails(p: Pool, r: RequestId, verdict: Option<Outcome>)
    requires r in p.ledger.identities
    ensures FailsOthers(p, Admit(p, r, verdict), {r})
  {
    var user, q := p.ledger.identities[r].user, Take(p, r);
    if verdict.Some? {
      EvictFails(q, user, {r});
      FailsOthersTransitive(p, q, Evict(q, user), {r});
      FinishFails(p, Evict(q, user), r, verdict.value, {r});
    } else if AtCapacity(p, user) {
      FinishFails(p, q, r, SubnodeLimit, {r});
    } else {
      EnrollSettles(q, user);
      AwaitLockSettles(Enroll(q, user), Enroll(q, user).subnodes[user], r);
      NothingSettled(p, Admit(p, r, verdict), {r});
    }
  }

  lemma EnrollSettles(p: Pool, user: string)
    ensures Enroll(p, user).ledger == p.ledger && user in Enroll(p, user).subnodes
  {
  }

  lemma AwaitLockSettles(p: Pool, n: NodeId, r: RequestId)
    ensures var q := AwaitLock(p, n, r);
            q.ledger.settled == p.ledger.settled && q.ledger.outcomes == p.ledger.outcomes
  {
  }

  lemma AssignFails(p: Pool, n: NodeId, r: RequestId, forked: Option<WorkerId>, accepted: bool, now: int)
    requires n < |p.nodes| && r in p.ledger.identities
    ensures FailsOthers(p, Assign(p, n, r, forked, accepted, now), {r})
  {
    var idle := FirstIdle(p, p.nodes[n].workers);
    var q := Assign(p, n, r, forked, accepted, now);
    if idle.Some? {
      SendFails(p, idle.value, r, accepted, {r});
    } else if |p.nodes[n].workers| < p.cfg.max && forked.None? {
      FinishFails(p, p, r, SpawnFailed, {r});
    } else {
      NothingSettled(p, q, {r});
    }
  }

  lemma LockFails(p: Pool, n: NodeId, forked: Option<WorkerId>, accepted: bool, now: int)
    requires CanLock(p, n)
    ensures FailsOthers(p, RunLock(p, n, forked, accepted, now), {p.nodes[n].waiting[0]})
  {
    var t, r := TakeLock(p, n), p.nodes[n].waiting[0];
    var id := p.ledger.identities[r];
    var ws := Stale(t, t.nodes[n].workers, id);
    var c := Prepare(t, n, id);
    RemoveAllShrinks(t, ws);
    RemoveAllKeepsIdentities(t, ws);
    RemoveAllFails(t, ws, {r});
    AssignFails(c, n, r, forked, accepted, now);
    FailsOthersTransitive(p, t, RemoveAll(t, ws), {r});
    FailsOthersTransitive(p, RemoveAll(t, ws), c, {r});
    FailsOthersTransitive(p, c, Assign(c, n, r, forked, accepted, now), {r});
  }

  lemma SpawnEndFails(p: Pool, n: NodeId, removed: bool, accepted: bool)
    requires n < |p.nodes| && p.nodes[n].spawning.Some?
    ensures FailsOthers(p, FailSpawn(p, n, removed), {p.nodes[n].spawning.value.request})
    ensures p.nodes[n].spawning.value.worker in p.workers ==>
              FailsOthers(p, Ready(p, n, accepted), {p.nodes[n].spawning.value.request})
  {
    var Spawn(r, w) := p.nodes[n].spawning.value;
    var e := EndSpawn(p, n);
    RemoveWorkerFails(e, w, {r});
    FailsOthersTransitive(p, e, RemoveWorker(e, w), {r});
    FinishFails(p, if removed then RemoveWorker(e, w) else e, r, SpawnFailed, {r});
    if w in p.workers { SendFails(Join(e, n, w), w, r, accepted, {r}); }
  }

  lemma RespondFails(p: Pool, w: WorkerId, r: RequestId, now: int, uidBlocked: nat -> bool)
    requires w in p.workers
    ensures FailsOthers(p, Respond(p, w, r, now, uidBlocked), {r} + QueueOf(p, w))
  {
    var own := {r} + QueueOf(p, w);
    var t := TakeBack(p, w, r);
    RemoveWorkerFails(p, w, own);
    DrainFails(t, w, now, uidBlocked, own);
    FailsOthersTransitive(p, t, Drain(t, w, now, uidBlocked), own);
    FinishFails(p, Drain(t, w, now, uidBlocked), r, Responded, own);
  }

  lemma ResumeFails(p: Pool, r: RequestId, verdict: Option<Outcome>, accepted: bool, now: int, uidBlocked: nat -> bool)
    requires r in p.ledger.draining && p.ledger.draining[r] in p.workers && r in p.ledger.identities && GroupVerdict(verdict)
    ensures FailsOthers(p, ResumeDrain(p, r, verdict, accepted, now, uidBlocked), {r} + QueueOf(p, p.ledger.draining[r]))
  {
    var w, q, user := p.ledger.draining[r], Take(p, r), p.ledger.identities[r].user;
    var own := {r} + QueueOf(p, w);
    SendFails(q, w, r, accepted, own);
    FailsOthersTransitive(p, q, SendRequest(q, w, r, accepted), own);
    if verdict.Some? {
      var e := Finish(Evict(q, user), r, verdict.value);
      EvictFails(q, user, own);
      FailsOthersTransitive(p, q, Evict(q, user), own);
      FinishFails(p, Evict(q, user), r, verdict.value, own);
      EvictShrinks(q, user);
      EvictGrows(q, user);
      assert GrowsIn(Queues, q, Evict(q, user));
      DrainFails(e, w, now, uidBlocked, own);
      FailsOthersTransitive(p, e, Drain(e, w, now, uidBlocked), own);
    }
  }

  lemma TimeOutFails(p: Pool, w: WorkerId, r: RequestId)
    requires w in p.workers
    ensures FailsOthers(p, TimeOutRpc(p, w, r), {r})
  {
    var t := TakeBack(p, w, r);
    RemoveWorkerFails(t, w, {r});
    FailsOthersTransitive(p, t, RemoveWorker(t, w), {r});
    FinishFails(p, RemoveWorker(t, w), r, TimedOut, {r});
  }

  lemma FireIdleFails(p: Pool, w: WorkerId)
    requires w in p.workers
    ensures FailsOthers(p, FireIdle(p, w), {})
  {
    var d := p.(workers := p.workers[w := p.workers[w].(idleTimer := false)]);
    RemoveWorkerFails(d, w, {});
    FailsOthersTransitive(p, d, RemoveWorker(d, w), {});
  }

  lemma ShutdownFails(p: Pool, order: seq<NodeId>)
    ensures FailsOthers(p, RemoveIdle(DropQueues(p.(shuttingDown := true), order), order), {})
  {
    var s := p.(shuttingDown := true);
    var d := DropQueues(s, order);
    DropQueuesFails(s, order, {});
    RemoveIdleFails(d, order, {});
    FailsOthersTransitive(p, s, d, {});
    FailsOthersTransitive(p, d, RemoveIdle(d, order), {});
  }
}
