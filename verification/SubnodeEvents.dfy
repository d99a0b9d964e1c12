/**
 Every event of the worker pool keeps its invariants: the pieces of code one event runs through, one
 at a time. For each piece: where every request is afterwards (`...Placed`), which workers and lists are as
 they were (`...Staffed`, `...Calm`), the rest (`...Rest`), and all together (`...Sound`). A worker that is
 just being given work is exempt from the promise that workers beside a queue are busy until it has some.
 */
module SubnodeEvents {
  import opened Wrappers
  import opened SubnodeModel
  import opened SubnodeSafety

  // ---------------------------------------------------------------------------
  // Exempt workers
  // ---------------------------------------------------------------------------

  lemma Widen(p: Pool, exempt: set<WorkerId>, more: set<WorkerId>)
    requires Sound(p, exempt)
    ensures Sound(p, exempt + more)
  {
    Unpack(p, exempt);
    assert forall w :: Engaged(p, w, exempt) ==> Engaged(p, w, exempt + more);
    Pack(p, exempt + more);
  }

  /** A worker with nothing to serve needs no exemption. */
  lemma Narrow(p: Pool, w: WorkerId)
    requires Sound(p, {w}) && w in p.workers
    requires p.workers[w].removed || Engaged(p, w, {}) || (Known(p, w) && p.nodes[p.workers[w].node].queue == [])
    ensures Sound(p, {})
  {
    Unpack(p, {w});
    forall n, v | 0 <= n < |p.nodes| && p.nodes[n].queue != [] && v in p.nodes[n].workers
      ensures Engaged(p, v, {})
    {
      assert Engaged(p, v, {w}) && NodeFits(n, p.nodes[n], p.workers);
      assert WorkerFits(w, p.workers[w], p.nodes);
    }
    Pack(p, {});
  }

  /** A worker that got ready is not being spawned. */
  lemma ReadyNotSpawning(p: Pool, exempt: set<WorkerId>, w: WorkerId)
    requires Sound(p, exempt) && w in p.workers && p.workers[w].ready
    ensures NotSpawning(p, w)
  {
    Unpack(p, exempt);
    assert forall n :: 0 <= n < |p.nodes| ==> NodeFits(n, p.nodes[n], p.workers);
  }

  lemma NotDraining(p: Pool, r: RequestId)
    requires Placed(p) && r in p.ledger.place && !p.ledger.place[r].Draining?
    ensures r !in p.ledger.draining
  {
    assert r in p.ledger.draining ==> Occurs(p, r, Draining(p.ledger.draining[r]));
  }

  // ---------------------------------------------------------------------------
  // Arriving
  // ---------------------------------------------------------------------------

  function Newcomer(p: Pool, r: RequestId, id: Identity): Pool {
    p.(ledger := p.ledger.(identities := p.ledger.identities[r := id],
                           inHand := p.ledger.inHand + {r}, place := p.ledger.place[r := InHand]))
  }

  lemma NewcomerSound(p: Pool, r: RequestId, id: Identity)
    requires Sound(p, {}) && r !in p.ledger.identities
    ensures Sound(Newcomer(p, r, id), {})
  {
    var q := Newcomer(p, r, id);
    Unpack(p, {});
    NewcomerPlaced(p, r, id);
    NewcomerMatched(p, r, id);
    OrderedFrame(p, q);
    assert forall v :: Engaged(p, v, {}) ==> Engaged(q, v, {});
    BusyFrame(p, q, {});
    Pack(q, {});
  }

  lemma NewcomerPlaced(p: Pool, r: RequestId, id: Identity)
    requires Placed(p) && r !in p.ledger.identities
    ensures Placed(Newcomer(p, r, id))
  {
    var q := Newcomer(p, r, id);
    forall s, pl ensures Occurs(q, s, pl) <==> At(q.ledger, s, pl) {
      assert Occurs(p, s, pl) <==> At(p.ledger, s, pl);
    }
  }

  lemma NewcomerMatched(p: Pool, r: RequestId, id: Identity)
    requires Matched(p) && Staffed(p) && WithinMax(p) && Served(p) && r !in p.ledger.identities
    ensures Matched(Newcomer(p, r, id)) && Staffed(Newcomer(p, r, id))
    ensures WithinMax(Newcomer(p, r, id)) && Served(Newcomer(p, r, id))
  {
    var q := Newcomer(p, r, id);
    assert forall s, w :: MayServe(p, s, w) ==> MayServe(q, s, w);
  }

  function Check(p: Pool, r: RequestId): Pool {
    var c := Put(p.ledger, r, Checking);
    p.(ledger := c.(checking := c.checking + {r}))
  }

  lemma CheckSound(p: Pool, r: RequestId)
    requires Sound(p, {}) && r in p.ledger.inHand
    ensures Sound(Check(p, r), {})
  {
    Orderly(p, {});
    CheckPlaced(p, r);
    OrderedFrame(p, Check(p, r));
    CalmSound(p, Check(p, r), {}, {});
  }

  lemma CheckPlaced(p: Pool, r: RequestId)
    requires Placed(p) && r in p.ledger.inHand
    ensures Placed(Check(p, r))
  {
    var q := Check(p, r);
    assert Occurs(p, r, InHand);
    forall s, pl ensures Occurs(q, s, pl) <==> At(q.ledger, s, pl) {
      assert Occurs(p, s, pl) <==> At(p.ledger, s, pl);
    }
  }

  lemma ArriveSound(p: Pool, r: RequestId, id: Identity, blocked: bool)
    requires Sound(p, {}) && r !in p.ledger.identities
    ensures Sound(Arrive(p, r, id, blocked), {})
    ensures Arrive(p, r, id, blocked).ledger.inHand == p.ledger.inHand - {r}
  {
    var q := Newcomer(p, r, id);
    NewcomerSound(p, r, id);
    if p.shuttingDown {
      SettleSound(q, r, WorkerError, {});
    } else if blocked {
      EvictSound(q, id.user, {});
      SettleSound(Evict(q, id.user), r, UidBlocked, {});
    } else {
      CheckSound(q, r);
      assert Arrive(p, r, id, blocked) == Check(q, r);
    }
  }

  // ---------------------------------------------------------------------------
  // Taking a request in hand
  // ---------------------------------------------------------------------------

  /** Taken in hand from a group check, or from one of a drain, whose worker now needs work. */
  lemma GrabSound(p: Pool, r: RequestId, exempt: set<WorkerId>)
    requires Sound(p, {}) && (r in p.ledger.checking || r in p.ledger.draining)
    requires r in p.ledger.draining ==> exempt == {p.ledger.draining[r]}
    requires r in p.ledger.checking ==> exempt == {}
    ensures Sound(Take(p, r), exempt)
  {
    var q := Take(p, r);
    Orderly(p, {});
    GrabPlaced(p, r);
    GrabCalm(p, r, exempt);
    OrderedFrame(p, q);
    CalmSound(p, q, {}, exempt);
  }

  lemma GrabCalm(p: Pool, r: RequestId, exempt: set<WorkerId>)
    requires r in p.ledger.draining ==> p.ledger.draining[r] in exempt
    ensures Calm(p, Take(p, r))
    ensures forall v :: Engaged(p, v, {}) ==> Engaged(Take(p, r), v, exempt)
  {
    var q := Take(p, r);
    forall v | Engaged(p, v, {}) ensures Engaged(q, v, exempt) {
      if v in p.ledger.draining.Values && v !in exempt {
        var s :| s in p.ledger.draining && p.ledger.draining[s] == v;
        assert s in q.ledger.draining && q.ledger.draining[s] == v;
      }
    }
  }

  lemma GrabPlaced(p: Pool, r: RequestId)
    requires Placed(p) && (r in p.ledger.checking || r in p.ledger.draining)
    ensures Placed(Take(p, r))
    ensures r in p.ledger.checking ==> r !in p.ledger.draining
  {
    var q := Take(p, r);
    var from := if r in p.ledger.checking then Checking else Draining(p.ledger.draining[r]);
    assert Occurs(p, r, from) && At(p.ledger, r, from);
    if r in p.ledger.checking { NotDraining(p, r); }
    forall s, pl ensures Occurs(q, s, pl) <==> At(q.ledger, s, pl) {
      assert Occurs(p, s, pl) <==> At(p.ledger, s, pl);
    }
  }

  /** Taken in hand from the worker it was sent to, which now needs work. */
  lemma TakeBackSound(p: Pool, w: WorkerId, r: RequestId)
    requires Sound(p, {}) && w in p.workers && r in p.workers[w].pending && !p.workers[w].removed
    ensures Sound(TakeBack(p, w, r), {w})
  {
    Orderly(p, {});
    TakeBackPlaced(p, w, r);
    TakeBackCalm(p, w, r);
    OrderedFrame(p, TakeBack(p, w, r));
    CalmSound(p, TakeBack(p, w, r), {}, {w});
  }

  lemma TakeBackCalm(p: Pool, w: WorkerId, r: RequestId)
    requires w in p.workers && r !in p.ledger.draining
    ensures Calm(p, TakeBack(p, w, r))
    ensures forall v :: Engaged(p, v, {}) ==> Engaged(TakeBack(p, w, r), v, {w})
  {
    assert TakeBack(p, w, r).ledger.draining == p.ledger.draining;
  }

  lemma TakeBackPlaced(p: Pool, w: WorkerId, r: RequestId)
    requires Placed(p) && w in p.workers && r in p.workers[w].pending && !p.workers[w].removed
    ensures Placed(TakeBack(p, w, r)) && r !in p.ledger.draining
  {
    var q := TakeBack(p, w, r);
    WithoutFacts(p.workers[w].pending, r);
    assert Occurs(p, r, InFlight(w)) && At(p.ledger, r, InFlight(w));
    NotDraining(p, r);
    forall s, pl ensures Occurs(q, s, pl) <==> At(q.ledger, s, pl) {
      assert Occurs(p, s, pl) <==> At(p.ledger, s, pl);
    }
  }

  // ---------------------------------------------------------------------------
  // The lock
  // ---------------------------------------------------------------------------

  lemma EnrollPlaced(p: Pool, user: string)
    requires Placed(p)
    ensures Placed(Enroll(p, user))
  {
    var q := Enroll(p, user);
    forall s, pl ensures Occurs(q, s, pl) <==> At(q.ledger, s, pl) {
      assert Occurs(p, s, pl) <==> At(p.ledger, s, pl);
    }
  }

  lemma EnrollStaffed(p: Pool, user: string)
    requires Staffed(p) && WithinMax(p) && Served(p)
    ensures Staffed(Enroll(p, user)) && WithinMax(Enroll(p, user)) && Served(Enroll(p, user))
  {
    var q := Enroll(p, user);
    forall v | v in q.workers ensures WorkerFits(v, q.workers[v], q.nodes) {
      assert WorkerFits(v, p.workers[v], p.nodes);
    }
    forall n | 0 <= n < |q.nodes| ensures NodeFits(n, q.nodes[n], q.workers) {
      assert n < |p.nodes| ==> NodeFits(n, p.nodes[n], p.workers);
    }
  }

  lemma EnrollRest(p: Pool, user: string)
    requires Matched(p) && Ordered(p) && Busy(p, {})
    ensures Matched(Enroll(p, user)) && Ordered(Enroll(p, user)) && Busy(Enroll(p, user), {})
  {
    var q := Enroll(p, user);
    MatchedFrame(p, q);
    assert forall n :: 0 <= n < |p.nodes| ==> q.nodes[n] == p.nodes[n] && OrderedNode(p.ledger, p.nodes[n]);
    assert forall v :: Engaged(p, v, {}) ==> Engaged(q, v, {});
  }

  lemma EnrollSound(p: Pool, user: string)
    requires Sound(p, {})
    ensures Sound(Enroll(p, user), {}) && Enroll(p, user).subnodes[user] < |Enroll(p, user).nodes|
  {
    Unpack(p, {});
    EnrollPlaced(p, user);
    EnrollStaffed(p, user);
    EnrollRest(p, user);
    Pack(Enroll(p, user), {});
  }

  lemma AwaitLockSound(p: Pool, n: NodeId, r: RequestId)
    requires Sound(p, {}) && n < |p.nodes| && r in p.ledger.inHand
    ensures Sound(AwaitLock(p, n, r), {})
  {
    Orderly(p, {});
    AwaitLockPlaced(p, n, r);
    OrderedFrame(p, AwaitLock(p, n, r));
    CalmSound(p, AwaitLock(p, n, r), {}, {});
  }

  lemma AwaitLockPlaced(p: Pool, n: NodeId, r: RequestId)
    requires Placed(p) && n < |p.nodes| && r in p.ledger.inHand
    ensures Placed(AwaitLock(p, n, r))
  {
    var q := AwaitLock(p, n, r);
    assert Occurs(p, r, InHand);
    assert !Occurs(p, r, Waiting(n));
    forall s, pl ensures Occurs(q, s, pl) <==> At(q.ledger, s, pl) {
      assert Occurs(p, s, pl) <==> At(p.ledger, s, pl);
    }
    AppendNoDup(p.nodes[n].waiting, [r]);
  }

  lemma GrabCheckedSound(p: Pool, r: RequestId)
    requires Sound(p, {}) && r in p.ledger.checking
    ensures Sound(Take(p, r), {})
  {
    assert r !in p.ledger.draining by { Unpack(p, {}); GrabPlaced(p, r); }
    GrabSound(p, r, {});
  }

  /** A request in hand ends with its user's workers removed. */
  lemma EvictAndSettleSound(p: Pool, user: string, r: RequestId, o: Outcome, exempt: set<WorkerId>)
    requires Sound(p, exempt) && r in p.ledger.inHand
    ensures Sound(Finish(Evict(p, user), r, o), exempt)
    ensures Finish(Evict(p, user), r, o).ledger.inHand == p.ledger.inHand - {r}
  {
    EvictSound(p, user, exempt);
    SettleSound(Evict(p, user), r, o, exempt);
  }

  lemma JoinLineSound(p: Pool, user: string, r: RequestId)
    requires Sound(p, {}) && r in p.ledger.inHand
    ensures var e := Enroll(p, user);
            Sound(AwaitLock(e, e.subnodes[user], r), {}) && AwaitLock(e, e.subnodes[user], r).ledger.inHand == p.ledger.inHand - {r}
  {
    var e := Enroll(p, user);
    EnrollSound(p, user);
    AwaitLockSound(e, e.subnodes[user], r);
  }

  lemma AdmitSound(p: Pool, r: RequestId, verdict: Option<Outcome>)
    requires Sound(p, {}) && r in p.ledger.checking && r in p.ledger.identities
    ensures Sound(Admit(p, r, verdict), {})
    ensures Admit(p, r, verdict).ledger.inHand == p.ledger.inHand - {r}
  {
    var user, q := p.ledger.identities[r].user, Take(p, r);
    GrabCheckedSound(p, r);
    if verdict.Some? {
      EvictAndSettleSound(q, user, r, verdict.value, {});
    } else if AtCapacity(p, user) {
      SettleSound(q, r, SubnodeLimit, {});
    } else {
      JoinLineSound(q, user, r);
    }
  }

  lemma TakeLockSound(p: Pool, n: NodeId)
    requires Sound(p, {}) && n < |p.nodes| && p.nodes[n].waiting != []
    ensures Sound(TakeLock(p, n), {})
  {
    Orderly(p, {});
    TakeLockPlaced(p, n);
    OrderedFrame(p, TakeLock(p, n));
    TakeLockCalm(p, n);
    CalmSound(p, TakeLock(p, n), {}, {});
  }

  lemma TakeLockCalm(p: Pool, n: NodeId)
    requires n < |p.nodes| && p.nodes[n].waiting != [] && p.nodes[n].waiting[0] !in p.ledger.draining
    ensures Calm(p, TakeLock(p, n))
    ensures forall v :: Engaged(p, v, {}) ==> Engaged(TakeLock(p, n), v, {})
  {
    assert TakeLock(p, n).ledger.draining == p.ledger.draining;
  }

  lemma TakeLockPlaced(p: Pool, n: NodeId)
    requires Placed(p) && n < |p.nodes| && p.nodes[n].waiting != []
    ensures Placed(TakeLock(p, n)) && p.nodes[n].waiting[0] !in p.ledger.draining
  {
    var q, r := TakeLock(p, n), p.nodes[n].waiting[0];
    assert Occurs(p, r, Waiting(n)) && At(p.ledger, r, Waiting(n));
    NotDraining(p, r);
    forall s, pl ensures Occurs(q, s, pl) <==> At(q.ledger, s, pl) {
      assert Occurs(p, s, pl) <==> At(p.ledger, s, pl);
    }
  }

  lemma RelistSound(p: Pool, user: string, n: NodeId)
    requires Sound(p, {}) && n < |p.nodes|
    ensures Sound(p.(subnodes := p.subnodes[user := n]), {})
  {
    var q := p.(subnodes := p.subnodes[user := n]);
    Unpack(p, {});
    RelistPlaced(p, q);
    MatchedFrame(p, q);
    OrderedFrame(p, q);
    BusyFrame(p, q, {});
    Pack(q, {});
  }

  lemma RelistPlaced(p: Pool, q: Pool)
    requires Placed(p) && Staffed(p) && q == p.(subnodes := q.subnodes)
    requires forall user :: user in q.subnodes ==> q.subnodes[user] < |p.nodes|
    ensures Placed(q) && Staffed(q)
  {
    forall s, pl ensures Occurs(q, s, pl) <==> At(q.ledger, s, pl) {
      assert Occurs(p, s, pl) <==> At(p.ledger, s, pl);
    }
  }

  /** Workers that are removed stay removed. */
  lemma RemoveWorkerRemoves(p: Pool, w: WorkerId)
    requires Known(p, w)
    ensures RemoveWorker(p, w).workers[w].removed
  {
  }

  lemma {:induction false} RemoveAllRemoves(p: Pool, ws: seq<WorkerId>, w: WorkerId)
    requires forall v :: v in ws ==> Known(p, v)
    requires w in ws
    ensures w in RemoveAll(p, ws).workers && RemoveAll(p, ws).workers[w].removed
    decreases |ws|
  {
    var q := RemoveWorker(p, ws[0]);
    RemoveWorkerRemoves(p, ws[0]);
    RemoveWorkerSpares(p, ws[0]);
    RemoveAllSpares(q, ws[1..]);
    forall v | v in ws[1..] ensures Known(q, v) { assert v in ws; }
    if w != ws[0] { RemoveAllRemoves(q, ws[1..], w); }
  }

  lemma {:induction false} StaleFacts(p: Pool, ws: seq<WorkerId>, id: Identity)
    requires forall w :: w in ws ==> w in p.workers
    ensures forall w :: w in Stale(p, ws, id) <==> w in ws && p.workers[w].pending == [] && !RunsAs(p.workers[w], id)
  {
    if ws != [] {
      StaleFacts(p, ws[1..], id);
      assert ws == [ws[0]] + ws[1..];
    }
  }

  /** The lock's holder finds no idle worker of other credentials. */
  lemma PrepareSound(p: Pool, n: NodeId, id: Identity)
    requires Sound(p, {}) && n < |p.nodes| && forall w :: w in p.nodes[n].workers ==> w in p.workers
    ensures Sound(Prepare(p, n, id), {})
    ensures Spares(p, Prepare(p, n, id), p.workers.Keys) && Prepare(p, n, id).workers.Keys == p.workers.Keys
  {
    var ws := Stale(p, p.nodes[n].workers, id);
    StaleFacts(p, p.nodes[n].workers, id);
    forall w | w in ws ensures NotSpawning(p, w) {
      Unpack(p, {});
      ListedNotSpawning(p, n, w);
    }
    RemoveAllSound(p, ws, {});
    RemoveAllSpares(p, ws);
    RemoveAllShrinks(p, ws);
    RelistSound(RemoveAll(p, ws), p.nodes[n].user, n);
  }

  lemma PreparedRunsAs(p: Pool, n: NodeId, id: Identity, w: WorkerId)
    requires Sound(p, {}) && n < |p.nodes| && forall v :: v in p.nodes[n].workers ==> v in p.workers
    requires n < |Prepare(p, n, id).nodes| && w in Prepare(p, n, id).nodes[n].workers && Idle(Prepare(p, n, id), w)
    ensures RunsAs(Prepare(p, n, id).workers[w], id)
  {
    var ws, q := Stale(p, p.nodes[n].workers, id), Prepare(p, n, id);
    PrepareSound(p, n, id);
    Unpack(p, {});
    Unpack(q, {});
    assert WorkerFits(w, q.workers[w], q.nodes) && NodeFits(n, q.nodes[n], q.workers);
    StaleFacts(p, p.nodes[n].workers, id);
    RemoveAllSpares(p, ws);
    RemoveAllShrinks(p, ws);
    assert NodeFits(n, p.nodes[n], p.workers);
    if w in ws { RemoveAllRemoves(p, ws, w); }
    assert WorkerFits(w, p.workers[w], p.nodes);
  }

  // ---------------------------------------------------------------------------
  // Spawning and queueing
  // ---------------------------------------------------------------------------

  lemma ForkPlaced(p: Pool, n: NodeId, r: RequestId, w: WorkerId)
    requires Placed(p) && n < |p.nodes| && r in p.ledger.inHand && r in p.ledger.identities
    requires w !in p.workers && p.nodes[n].spawning.None?
    ensures Placed(Fork(p, n, r, w))
  {
    var q := Fork(p, n, r, w);
    assert Occurs(p, r, InHand);
    forall s, pl ensures Occurs(q, s, pl) <==> At(q.ledger, s, pl) {
      assert Occurs(p, s, pl) <==> At(p.ledger, s, pl);
    }
  }

  lemma ForkStaffed(p: Pool, n: NodeId, r: RequestId, w: WorkerId)
    requires Staffed(p) && WithinMax(p) && Served(p) && n < |p.nodes| && r in p.ledger.identities
    requires w !in p.workers && p.nodes[n].spawning.None? && |p.nodes[n].workers| < p.cfg.max
    ensures Staffed(Fork(p, n, r, w)) && WithinMax(Fork(p, n, r, w)) && Served(Fork(p, n, r, w))
  {
    var q := Fork(p, n, r, w);
    assert NodeFits(n, p.nodes[n], p.workers);
    forall v | v in q.workers ensures WorkerFits(v, q.workers[v], q.nodes) {
      assert v != w ==> WorkerFits(v, p.workers[v], p.nodes);
    }
    forall m | 0 <= m < |q.nodes| ensures NodeFits(m, q.nodes[m], q.workers) {
      assert NodeFits(m, p.nodes[m], p.workers);
    }
  }

  lemma ForkRest(p: Pool, n: NodeId, r: RequestId, w: WorkerId)
    requires Matched(p) && Ordered(p) && Busy(p, {}) && n < |p.nodes| && r in p.ledger.identities && w !in p.workers
    ensures Matched(Fork(p, n, r, w)) && Ordered(Fork(p, n, r, w)) && Busy(Fork(p, n, r, w), {})
  {
    var q := Fork(p, n, r, w);
    assert forall s, v :: MayServe(p, s, v) ==> MayServe(q, s, v);
    assert MayServe(q, r, w);
    OrderedFrame(p, q);
    assert forall v :: Engaged(p, v, {}) ==> Engaged(q, v, {});
    BusyFrame(p, q, {});
  }

  lemma ForkSound(p: Pool, n: NodeId, r: RequestId, w: WorkerId)
    requires Sound(p, {}) && n < |p.nodes| && r in p.ledger.inHand && r in p.ledger.identities
    requires w !in p.workers && p.nodes[n].spawning.None? && |p.nodes[n].workers| < p.cfg.max
    ensures Sound(Fork(p, n, r, w), {})
  {
    Unpack(p, {});
    ForkPlaced(p, n, r, w);
    ForkStaffed(p, n, r, w);
    ForkRest(p, n, r, w);
    Pack(Fork(p, n, r, w), {});
  }

  lemma EnqueuePlaced(p: Pool, n: NodeId, r: RequestId, now: int)
    requires Placed(p) && n < |p.nodes| && r in p.ledger.inHand
    ensures Placed(Enqueue(p, n, r, now))
  {
    var q := Enqueue(p, n, r, now);
    assert Occurs(p, r, InHand);
    assert !Occurs(p, r, Queued(n));
    forall s, pl ensures Occurs(q, s, pl) <==> At(q.ledger, s, pl) {
      assert Occurs(p, s, pl) <==> At(p.ledger, s, pl);
    }
    AppendNoDup(p.nodes[n].queue, [r]);
  }

  lemma EnqueueStaffed(p: Pool, n: NodeId, r: RequestId, now: int)
    requires Staffed(p) && WithinMax(p) && Served(p) && Matched(p) && n < |p.nodes| && p.nodes[n].workers != []
    ensures var q := Enqueue(p, n, r, now);
            Staffed(q) && WithinMax(q) && Served(q) && Matched(q)
  {
    var q := Enqueue(p, n, r, now);
    forall v | v in q.workers ensures WorkerFits(v, q.workers[v], q.nodes) {
      assert WorkerFits(v, p.workers[v], p.nodes);
    }
    forall m | 0 <= m < |q.nodes| ensures NodeFits(m, q.nodes[m], q.workers) {
      assert NodeFits(m, p.nodes[m], p.workers);
    }
    MatchedFrame(p, q);
  }

  lemma ArrivalAppended(l: Ledger, m: Ledger, s: Subnode, t: Subnode, r: RequestId)
    requires OrderedNode(l, s) && r !in s.queue && Arrival(m, r) == s.arrivals
    requires forall v :: v != r ==> Arrival(m, v) == Arrival(l, v)
    requires t.queue == s.queue + [r] && t.shifted == s.shifted && t.arrivals == s.arrivals + 1
    ensures OrderedNode(m, t)
  {
  }

  lemma EnqueueOrdered(p: Pool, n: NodeId, r: RequestId, now: int)
    requires Ordered(p) && n < |p.nodes|
    requires forall m :: 0 <= m < |p.nodes| ==> r !in p.nodes[m].queue
    ensures Ordered(Enqueue(p, n, r, now))
  {
    var q := Enqueue(p, n, r, now);
    forall m | 0 <= m < |q.nodes| ensures OrderedNode(q.ledger, q.nodes[m]) {
      assert OrderedNode(p.ledger, p.nodes[m]);
      assert forall s :: s != r ==> Arrival(q.ledger, s) == Arrival(p.ledger, s);
      if m == n { ArrivalAppended(p.ledger, q.ledger, p.nodes[n], q.nodes[n], r); }
    }
  }

  lemma EnqueueBusy(p: Pool, n: NodeId, r: RequestId, now: int)
    requires Busy(p, {}) && n < |p.nodes| && forall w :: w in p.nodes[n].workers ==> Engaged(p, w, {})
    ensures Busy(Enqueue(p, n, r, now), {})
  {
    var q := Enqueue(p, n, r, now);
    assert forall v :: Engaged(p, v, {}) ==> Engaged(q, v, {});
  }

  lemma EnqueueSound(p: Pool, n: NodeId, r: RequestId, now: int)
    requires Sound(p, {}) && n < |p.nodes| && r in p.ledger.inHand && p.nodes[n].workers != []
    requires forall w :: w in p.nodes[n].workers ==> Engaged(p, w, {})
    ensures Sound(Enqueue(p, n, r, now), {})
  {
    Unpack(p, {});
    forall m | 0 <= m < |p.nodes| ensures r !in p.nodes[m].queue {
      assert Occurs(p, r, InHand) && !Occurs(p, r, Queued(m));
    }
    EnqueuePlaced(p, n, r, now);
    EnqueueStaffed(p, n, r, now);
    EnqueueOrdered(p, n, r, now);
    EnqueueBusy(p, n, r, now);
    Pack(Enqueue(p, n, r, now), {});
  }

  lemma {:induction false} NoneIdle(p: Pool, ws: seq<WorkerId>, w: WorkerId)
    requires FirstIdle(p, ws).None? && w in ws
    ensures !Idle(p, w)
  {
    if w != ws[0] { NoneIdle(p, ws[1..], w); }
  }

  lemma SendIdleSound(p: Pool, w: WorkerId, r: RequestId, accepted: bool)
    requires Sound(p, {}) && r in p.ledger.inHand && MayServe(p, r, w) && p.workers[w].ready
    ensures Sound(SendRequest(p, w, r, accepted), {})
    ensures SendRequest(p, w, r, accepted).ledger.inHand == p.ledger.inHand - {r}
  {
    Widen(p, {}, {w});
    SendSound(p, w, r, accepted, {});
  }

  lemma AssignSound(p: Pool, n: NodeId, r: RequestId, forked: Option<WorkerId>, accepted: bool, now: int)
    requires Sound(p, {}) && n < |p.nodes| && r in p.ledger.inHand && r in p.ledger.identities
    requires p.nodes[n].spawning.None? && (forked.Some? ==> forked.value !in p.workers)
    requires forall w :: w in p.nodes[n].workers && Idle(p, w) ==> RunsAs(p.workers[w], p.ledger.identities[r])
    ensures Sound(Assign(p, n, r, forked, accepted, now), {})
    ensures Assign(p, n, r, forked, accepted, now).ledger.inHand == p.ledger.inHand - {r}
  {
    var idle := FirstIdle(p, p.nodes[n].workers);
    if idle.Some? {
      SendIdleSound(p, idle.value, r, accepted);
    } else if |p.nodes[n].workers| >= p.cfg.max {
      QueueUpSound(p, n, r, now);
    } else if forked.Some? {
      ForkSound(p, n, r, forked.value);
    } else {
      SettleSound(p, r, SpawnFailed, {});
    }
  }

  lemma QueueUpSound(p: Pool, n: NodeId, r: RequestId, now: int)
    requires Sound(p, {}) && n < |p.nodes| && r in p.ledger.inHand
    requires FirstIdle(p, p.nodes[n].workers).None? && |p.nodes[n].workers| >= p.cfg.max
    ensures Sound(Enqueue(p, n, r, now), {}) && Enqueue(p, n, r, now).ledger.inHand == p.ledger.inHand - {r}
  {
    AllEngaged(p, n);
    EnqueueSound(p, n, r, now);
  }

  /** Where no worker is idle, all are busy. */
  lemma AllEngaged(p: Pool, n: NodeId)
    requires Sound(p, {}) && n < |p.nodes| && FirstIdle(p, p.nodes[n].workers).None?
    ensures forall w :: w in p.nodes[n].workers ==> Engaged(p, w, {})
    ensures 1 <= p.cfg.max
  {
    assert Holds(IsStaffed, p, {}) && Holds(IsWithinMax, p, {});
    forall w | w in p.nodes[n].workers ensures Engaged(p, w, {}) {
      NoneIdle(p, p.nodes[n].workers, w);
      assert NodeFits(n, p.nodes[n], p.workers) && WorkerFits(w, p.workers[w], p.nodes);
    }
  }

  lemma RunLockSound(p: Pool, n: NodeId, forked: Option<WorkerId>, accepted: bool, now: int)
    requires Sound(p, {}) && CanLock(p, n) && (forked.Some? ==> forked.value !in p.workers)
    ensures Sound(RunLock(p, n, forked, accepted, now), {})
    ensures RunLock(p, n, forked, accepted, now).ledger.inHand == p.ledger.inHand - {p.nodes[n].waiting[0]}
  {
    var r := p.nodes[n].waiting[0];
    var t, id := TakeLock(p, n), p.ledger.identities[r];
    var q := Prepare(t, n, id);
    TakeLockSound(p, n);
    PrepareSound(t, n, id);
    forall w | w in q.nodes[n].workers && Idle(q, w) ensures RunsAs(q.workers[w], id) {
      PreparedRunsAs(t, n, id, w);
    }
    AssignSound(q, n, r, forked, accepted, now);
  }

  // ---------------------------------------------------------------------------
  // The end of a spawn
  // ---------------------------------------------------------------------------

  lemma EndSpawnPlaced(p: Pool, n: NodeId)
    requires Placed(p) && n < |p.nodes| && p.nodes[n].spawning.Some?
    ensures Placed(EndSpawn(p, n)) && p.nodes[n].spawning.value.request !in p.ledger.draining
  {
    var q, r := EndSpawn(p, n), p.nodes[n].spawning.value.request;
    assert Occurs(p, r, Spawning(n)) && At(p.ledger, r, Spawning(n));
    NotDraining(p, r);
    forall s, pl ensures Occurs(q, s, pl) <==> At(q.ledger, s, pl) {
      assert Occurs(p, s, pl) <==> At(p.ledger, s, pl);
    }
  }

  lemma EndSpawnCalm(p: Pool, n: NodeId)
    requires n < |p.nodes| && p.nodes[n].spawning.Some? && p.nodes[n].spawning.value.request !in p.ledger.draining
    ensures Calm(p, EndSpawn(p, n))
    ensures forall v :: Engaged(p, v, {}) ==> Engaged(EndSpawn(p, n), v, {})
  {
    assert EndSpawn(p, n).ledger.draining == p.ledger.draining;
  }

  lemma EndSpawnSound(p: Pool, n: NodeId)
    requires Sound(p, {}) && n < |p.nodes| && p.nodes[n].spawning.Some?
    ensures Sound(EndSpawn(p, n), {})
  {
    Orderly(p, {});
    EndSpawnPlaced(p, n);
    EndSpawnCalm(p, n);
    OrderedFrame(p, EndSpawn(p, n));
    CalmSound(p, EndSpawn(p, n), {}, {});
  }

  /** Once its spawn ended, no subnode is waiting for the worker. */
  lemma EndSpawnFrees(p: Pool, n: NodeId)
    requires Sound(p, {}) && n < |p.nodes| && p.nodes[n].spawning.Some?
    ensures var Spawn(r, w) := p.nodes[n].spawning.value;
            NotSpawning(EndSpawn(p, n), w) && MayServe(EndSpawn(p, n), r, w) && Seats(EndSpawn(p, n).nodes[n]) < p.cfg.max
    ensures var w := p.nodes[n].spawning.value.worker;
            w in p.workers && p.workers[w].node == n && !p.workers[w].ready && !p.workers[w].removed
  {
    Unpack(p, {});
    assert forall m :: 0 <= m < |p.nodes| ==> NodeFits(m, p.nodes[m], p.workers);
    assert MayServe(p, p.nodes[n].spawning.value.request, p.nodes[n].spawning.value.worker);
  }

  lemma JoinPlaced(p: Pool, n: NodeId, w: WorkerId)
    requires Placed(p) && n < |p.nodes| && w in p.workers && w !in p.nodes[n].workers
    ensures Placed(Join(p, n, w))
  {
    var q := Join(p, n, w);
    forall s, pl ensures Occurs(q, s, pl) <==> At(q.ledger, s, pl) {
      assert Occurs(p, s, pl) <==> At(p.ledger, s, pl);
    }
    AppendNoDup(p.nodes[n].workers, [w]);
  }

  lemma JoinStaffed(p: Pool, n: NodeId, w: WorkerId)
    requires Staffed(p) && WithinMax(p) && Served(p) && n < |p.nodes| && w in p.workers
    requires p.workers[w].node == n && !p.workers[w].ready && !p.workers[w].removed
    requires NotSpawning(p, w) && Seats(p.nodes[n]) < p.cfg.max
    ensures Staffed(Join(p, n, w)) && WithinMax(Join(p, n, w)) && Served(Join(p, n, w))
  {
    var q := Join(p, n, w);
    forall v | v in q.workers ensures WorkerFits(v, q.workers[v], q.nodes) {
      assert WorkerFits(v, p.workers[v], p.nodes);
    }
    forall m | 0 <= m < |q.nodes| ensures NodeFits(m, q.nodes[m], q.workers) {
      assert NodeFits(m, p.nodes[m], p.workers);
    }
  }

  lemma JoinRest(p: Pool, n: NodeId, w: WorkerId)
    requires Matched(p) && Ordered(p) && Busy(p, {}) && n < |p.nodes| && w in p.workers
    ensures Matched(Join(p, n, w)) && Ordered(Join(p, n, w)) && Busy(Join(p, n, w), {w})
  {
    var q := Join(p, n, w);
    MatchedFrame(p, q);
    OrderedFrame(p, q);
    assert forall v :: Engaged(p, v, {}) ==> Engaged(q, v, {w});
  }

  lemma JoinSound(p: Pool, n: NodeId, w: WorkerId)
    requires Sound(p, {}) && n < |p.nodes| && w in p.workers
    requires p.workers[w].node == n && !p.workers[w].ready && !p.workers[w].removed
    requires NotSpawning(p, w) && Seats(p.nodes[n]) < p.cfg.max
    ensures Sound(Join(p, n, w), {w})
  {
    Unpack(p, {});
    assert WorkerFits(w, p.workers[w], p.nodes);
    JoinPlaced(p, n, w);
    JoinStaffed(p, n, w);
    JoinRest(p, n, w);
    Pack(Join(p, n, w), {w});
  }

  lemma ReadySound(p: Pool, n: NodeId, accepted: bool)
    requires Sound(p, {}) && n < |p.nodes| && p.nodes[n].spawning.Some? && p.nodes[n].spawning.value.worker in p.workers
    ensures Sound(Ready(p, n, accepted), {})
    ensures Ready(p, n, accepted).ledger.inHand == p.ledger.inHand - {p.nodes[n].spawning.value.request}
  {
    var Spawn(r, w) := p.nodes[n].spawning.value;
    EndSpawnSound(p, n);
    EndSpawnFrees(p, n);
    JoinSound(EndSpawn(p, n), n, w);
    assert {} + {w} == {w};
    SendSound(Join(EndSpawn(p, n), n, w), w, r, accepted, {});
  }

  lemma FailSpawnSound(p: Pool, n: NodeId, removed: bool)
    requires Sound(p, {}) && n < |p.nodes| && p.nodes[n].spawning.Some?
    ensures Sound(FailSpawn(p, n, removed), {})
    ensures FailSpawn(p, n, removed).ledger.inHand == p.ledger.inHand - {p.nodes[n].spawning.value.request}
  {
    var Spawn(r, w) := p.nodes[n].spawning.value;
    var q := EndSpawn(p, n);
    EndSpawnSound(p, n);
    EndSpawnFrees(p, n);
    if removed {
      RemoveWorkerSound(q, w, {});
      RemoveWorkerSpares(q, w);
      SettleSound(RemoveWorker(q, w), r, SpawnFailed, {});
    } else {
      SettleSound(q, r, SpawnFailed, {});
    }
  }

  // ---------------------------------------------------------------------------
  // Draining
  // ---------------------------------------------------------------------------

  lemma OffQueuePlaced(p: Pool, n: NodeId, r: RequestId)
    requires Placed(p) && n < |p.nodes| && r in p.nodes[n].queue
    ensures Placed(Dequeue(p, n, r)) && r !in p.ledger.draining && r in p.ledger.entries && r in p.ledger.identities
  {
    var q := Dequeue(p, n, r);
    WithoutFacts(p.nodes[n].queue, r);
    assert Occurs(p, r, Queued(n)) && At(p.ledger, r, Queued(n));
    NotDraining(p, r);
    forall s, pl ensures Occurs(q, s, pl) <==> At(q.ledger, s, pl) {
      assert Occurs(p, s, pl) <==> At(p.ledger, s, pl);
    }
  }

  lemma {:induction false} WithoutOrder(l: Ledger, s: seq<nat>, x: nat)
    requires NoDup(s) && forall i, j :: 0 <= i < j < |s| ==> Arrival(l, s[i]) < Arrival(l, s[j])
    ensures forall i, j :: 0 <= i < j < |Without(s, x)| ==> Arrival(l, Without(s, x)[i]) < Arrival(l, Without(s, x)[j])
    ensures forall y :: y in Without(s, x) ==> y in s
  {
    if s != [] {
      assert NoDup(s[1..]);
      WithoutOrder(l, s[1..], x);
      assert forall y :: y in s[1..] ==> Arrival(l, s[0]) < Arrival(l, y);
    }
  }

  lemma OffQueueOrdered(p: Pool, n: NodeId, r: RequestId)
    requires Ordered(p) && n < |p.nodes| && NoDup(p.nodes[n].queue)
    ensures Ordered(Dequeue(p, n, r))
  {
    var q := Dequeue(p, n, r);
    assert forall s :: Arrival(q.ledger, s) == Arrival(p.ledger, s);
    assert OrderedNode(p.ledger, p.nodes[n]);
    WithoutOrder(p.ledger, p.nodes[n].queue, r);
    forall m | 0 <= m < |q.nodes| ensures OrderedNode(q.ledger, q.nodes[m]) {
      assert OrderedNode(p.ledger, p.nodes[m]);
    }
  }

  lemma OffQueueCalm(p: Pool, n: NodeId, r: RequestId, exempt: set<WorkerId>)
    requires n < |p.nodes| && r !in p.ledger.draining
    ensures Calm(p, Dequeue(p, n, r))
    ensures forall v :: Engaged(p, v, exempt) ==> Engaged(Dequeue(p, n, r), v, exempt)
  {
    assert Dequeue(p, n, r).ledger.draining == p.ledger.draining;
  }

  lemma DequeueSound(p: Pool, n: NodeId, r: RequestId, exempt: set<WorkerId>)
    requires Sound(p, exempt) && n < |p.nodes| && r in p.nodes[n].queue
    ensures Sound(Dequeue(p, n, r), exempt)
  {
    Orderly(p, exempt);
    OffQueuePlaced(p, n, r);
    OffQueueOrdered(p, n, r);
    OffQueueCalm(p, n, r, exempt);
    CalmSound(p, Dequeue(p, n, r), exempt, exempt);
  }

  /** The head of a queue comes after all that left it and before all that stay. */
  lemma HeadFirst(l: Ledger, s: Subnode, m: Ledger, t: Subnode)
    requires OrderedNode(l, s) && s.queue != [] && forall r :: Arrival(m, r) == Arrival(l, r)
    requires t == s.(queue := s.queue[1..], shifted := s.shifted + [Arrival(l, s.queue[0])])
    ensures OrderedNode(m, t)
  {
  }

  lemma ShiftedOrdered(p: Pool, n: NodeId)
    requires Ordered(p) && n < |p.nodes| && p.nodes[n].queue != [] && p.nodes[n].queue[0] in p.ledger.entries
    ensures Ordered(Shift(p, n))
  {
    var q := Shift(p, n);
    assert forall s :: Arrival(q.ledger, s) == Arrival(p.ledger, s);
    HeadFirst(p.ledger, p.nodes[n], q.ledger, q.nodes[n]);
    forall m | 0 <= m < |q.nodes| ensures OrderedNode(q.ledger, q.nodes[m]) {
      assert OrderedNode(p.ledger, p.nodes[m]);
    }
  }

  lemma ShiftCalm(p: Pool, n: NodeId, exempt: set<WorkerId>)
    requires n < |p.nodes| && p.nodes[n].queue != [] && p.nodes[n].queue[0] in p.ledger.entries
    requires p.nodes[n].queue[0] !in p.ledger.draining
    ensures Calm(p, Shift(p, n))
    ensures forall v :: Engaged(p, v, exempt) ==> Engaged(Shift(p, n), v, exempt)
  {
    assert Shift(p, n).ledger.draining == p.ledger.draining;
  }

  lemma ShiftPlaced(p: Pool, n: NodeId)
    requires Placed(p) && n < |p.nodes| && p.nodes[n].queue != [] && p.nodes[n].queue[0] in p.ledger.entries
    ensures Placed(Shift(p, n)) && p.nodes[n].queue[0] !in p.ledger.draining
  {
    var r := p.nodes[n].queue[0];
    OffQueuePlaced(p, n, r);
    var d, q := Dequeue(p, n, r), Shift(p, n);
    assert q.nodes[n].queue == d.nodes[n].queue;
    forall s, pl ensures Occurs(q, s, pl) <==> At(q.ledger, s, pl) {
      assert Occurs(d, s, pl) <==> At(d.ledger, s, pl);
    }
  }

  lemma ShiftSound(p: Pool, n: NodeId, exempt: set<WorkerId>)
    requires Sound(p, exempt) && n < |p.nodes| && p.nodes[n].queue != [] && p.nodes[n].queue[0] in p.ledger.entries
    ensures Sound(Shift(p, n), exempt)
  {
    Orderly(p, exempt);
    ShiftPlaced(p, n);
    ShiftedOrdered(p, n);
    ShiftCalm(p, n, exempt);
    CalmSound(p, Shift(p, n), exempt, exempt);
  }

  lemma SuspendPlaced(p: Pool, r: RequestId, w: WorkerId)
    requires Placed(p) && r in p.ledger.inHand
    ensures Placed(Suspend(p, r, w)) && r !in p.ledger.draining
  {
    var q := Suspend(p, r, w);
    assert Occurs(p, r, InHand);
    NotDraining(p, r);
    forall s, pl ensures Occurs(q, s, pl) <==> At(q.ledger, s, pl) {
      assert Occurs(p, s, pl) <==> At(p.ledger, s, pl);
    }
  }

  lemma SuspendRest(p: Pool, r: RequestId, w: WorkerId)
    requires Matched(p) && Ordered(p) && Busy(p, {w}) && r !in p.ledger.draining && MayServe(p, r, w)
    ensures Matched(Suspend(p, r, w)) && Ordered(Suspend(p, r, w)) && Busy(Suspend(p, r, w), {})
  {
    var q := Suspend(p, r, w);
    assert forall s, v :: MayServe(p, s, v) ==> MayServe(q, s, v);
    OrderedFrame(p, q);
    assert q.ledger.draining[r] == w;
    forall v | Engaged(p, v, {w}) ensures Engaged(q, v, {}) {
      if v != w && v in p.ledger.draining.Values {
        var s :| s in p.ledger.draining && p.ledger.draining[s] == v;
        assert q.ledger.draining[s] == v;
      }
    }
  }

  /** The worker that waits for a drain's group check is spoken for. */
  lemma SuspendSound(p: Pool, r: RequestId, w: WorkerId)
    requires Sound(p, {w}) && r in p.ledger.inHand && MayServe(p, r, w) && p.workers[w].ready
    ensures Sound(Suspend(p, r, w), {})
  {
    forall c: Clause ensures Holds(c, Suspend(p, r, w), {}) {
      match c
      case IsPlaced => assert Holds(IsPlaced, p, {w}); SuspendPlaced(p, r, w);
      case IsMatched => SuspendRestSound(p, r, w);
      case IsOrdered => SuspendRestSound(p, r, w);
      case IsBusy => SuspendRestSound(p, r, w);
      case IsStaffed => SuspendStaffed(p, r, w);
      case IsWithinMax => SuspendStaffed(p, r, w);
      case IsServed => SuspendStaffed(p, r, w);
    }
  }

  lemma SuspendStaffed(p: Pool, r: RequestId, w: WorkerId)
    requires Sound(p, {w}) && w in p.workers && p.workers[w].ready
    ensures Staffed(Suspend(p, r, w)) && WithinMax(Suspend(p, r, w)) && Served(Suspend(p, r, w))
  {
    assert Holds(IsStaffed, p, {w}) && Holds(IsWithinMax, p, {w}) && Holds(IsServed, p, {w});
  }

  lemma SuspendRestSound(p: Pool, r: RequestId, w: WorkerId)
    requires Sound(p, {w}) && r in p.ledger.inHand && MayServe(p, r, w)
    ensures Matched(Suspend(p, r, w)) && Ordered(Suspend(p, r, w)) && Busy(Suspend(p, r, w), {})
  {
    Unpack(p, {w});
    assert Occurs(p, r, InHand) && At(p.ledger, r, InHand);
    NotDraining(p, r);
    SuspendRest(p, r, w);
  }

  /** A drain that runs out of requests leaves its worker idle beside an empty queue. */
  lemma ResetSound(p: Pool, w: WorkerId)
    requires Sound(p, {w}) && w in p.workers && p.workers[w].ready && Known(p, w)
    requires p.nodes[p.workers[w].node].queue == []
    ensures Sound(ResetIdleTimer(p, w), {})
  {
    Orderly(p, {w});
    ResetPlaced(p, w);
    OrderedFrame(p, ResetIdleTimer(p, w));
    CalmSound(p, ResetIdleTimer(p, w), {w}, {w});
    Narrow(ResetIdleTimer(p, w), w);
  }

  lemma ResetPlaced(p: Pool, w: WorkerId)
    requires Placed(p) && w in p.workers && p.workers[w].ready
    ensures Placed(ResetIdleTimer(p, w)) && Calm(p, ResetIdleTimer(p, w))
    ensures forall v :: Engaged(p, v, {w}) ==> Engaged(ResetIdleTimer(p, w), v, {w})
  {
    var q := ResetIdleTimer(p, w);
    forall s, pl ensures Occurs(q, s, pl) <==> At(q.ledger, s, pl) {
      assert Occurs(p, s, pl) <==> At(p.ledger, s, pl);
    }
  }
}
