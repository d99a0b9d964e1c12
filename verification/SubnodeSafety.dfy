/**
 What every event of the worker pool keeps: each request is in exactly one place and settled at most
 once, and goes only to a worker of its own identity; workers stay within the maximum, queues in order.
 The invariants are seven clauses over the whole pool. A lemma about one piece of code proves each clause
 from the clauses it depends on; `Sound` is all seven, behind a quantifier so that lemmas that only pass it
 on need not look into it.
 */
module SubnodeSafety {
  import opened Wrappers
  import opened SubnodeModel

  // ---------------------------------------------------------------------------
  // The invariants
  // ---------------------------------------------------------------------------

  /** Whether the pool's structures hold request `r` at place `pl`. */
  ghost predicate Occurs(p: Pool, r: RequestId, pl: Place) {
    match pl
    case Checking => r in p.ledger.checking
    case Waiting(n) => n < |p.nodes| && r in p.nodes[n].waiting
    case Spawning(n) => n < |p.nodes| && p.nodes[n].spawning.Some? && p.nodes[n].spawning.value.request == r
    case Queued(n) => n < |p.nodes| && r in p.nodes[n].queue
    case InHand => r in p.ledger.inHand
    case Draining(w) => r in p.ledger.draining && p.ledger.draining[r] == w
    case InFlight(w) => w in p.workers && !p.workers[w].removed && r in p.workers[w].pending
    case Settled => r in p.ledger.settled
  }

  ghost predicate At(l: Ledger, r: RequestId, pl: Place) { r in l.place && l.place[r] == pl }

  ghost predicate NoDup(s: seq<nat>) { forall i, j :: 0 <= i < j < |s| ==> s[i] != s[j] }

  ghost predicate NoDups(p: Pool) {
    && NoDup(p.ledger.settled)
    && (forall n :: 0 <= n < |p.nodes| ==>
          NoDup(p.nodes[n].waiting) && NoDup(p.nodes[n].queue) && NoDup(p.nodes[n].workers))
    && (forall w :: w in p.workers ==> NoDup(p.workers[w].pending))
  }

  /** Queue timers are armed for exactly the queued requests, RPC timers for exactly those in flight. */
  ghost predicate Timed(l: Ledger) {
    && l.place.Keys == l.identities.Keys
    && (forall r :: r in l.queueTimers <==> r in l.place && l.place[r].Queued?)
    && (forall r :: r in l.rpcTimers <==> r in l.place && l.place[r].InFlight?)
    && (forall r :: r in l.rpcTimers ==> l.place[r] == InFlight(l.rpcTimers[r]))
    && (forall r :: r in l.place && l.place[r].Queued? ==> r in l.entries)
  }

  /** The structures hold each request exactly where its moves lead. */
  ghost predicate Placed(p: Pool) {
    && (forall r, pl :: Occurs(p, r, pl) <==> At(p.ledger, r, pl))
    && NoDups(p) && Timed(p.ledger)
  }

  /** A live worker that got ready is listed; one that did not was never sent anything. */
  ghost predicate WorkerFits(w: WorkerId, k: Worker, nodes: seq<Subnode>) {
    && k.node < |nodes|
    && (w in nodes[k.node].workers <==> k.ready && !k.removed)
    && (!k.ready ==> k.pending == [] && !k.idleTimer)
  }

  ghost predicate NodeFits(n: NodeId, s: Subnode, workers: map<WorkerId, Worker>) {
    && (forall w :: w in s.workers ==> w in workers && workers[w].node == n)
    && (s.spawning.Some? ==>
          var w := s.spawning.value.worker;
          w in workers && workers[w].node == n && !workers[w].ready && !workers[w].removed)
  }

  ghost predicate Staffed(p: Pool) {
    && (forall user :: user in p.subnodes ==> p.subnodes[user] < |p.nodes|)
    && (forall w :: w in p.workers ==> WorkerFits(w, p.workers[w], p.nodes))
    && (forall n :: 0 <= n < |p.nodes| ==> NodeFits(n, p.nodes[n], p.workers))
    && (forall r :: r in p.ledger.draining ==> p.ledger.draining[r] in p.workers && p.workers[p.ledger.draining[r]].ready)
  }

  function Seats(s: Subnode): nat { |s.workers| + if s.spawning.Some? then 1 else 0 }

  ghost predicate WithinMax(p: Pool) {
    && 1 <= p.cfg.max
    && forall n :: 0 <= n < |p.nodes| ==> Seats(p.nodes[n]) <= p.cfg.max
  }

  /** A queue has workers to serve it. */
  ghost predicate Served(p: Pool) {
    forall n :: 0 <= n < |p.nodes| && p.nodes[n].queue != [] ==> p.nodes[n].workers != []
  }

  ghost predicate MayServe(p: Pool, r: RequestId, w: WorkerId) {
    r in p.ledger.identities && w in p.workers && RunsAs(p.workers[w], p.ledger.identities[r])
  }

  /** What was sent, or is about to be, goes to a worker of the request's own identity. */
  ghost predicate Matched(p: Pool) {
    && (forall i :: 0 <= i < |p.ledger.sent| ==> MayServe(p, p.ledger.sent[i].request, p.ledger.sent[i].worker))
    && (forall r :: r in p.ledger.draining ==> MayServe(p, r, p.ledger.draining[r]))
    && (forall n :: 0 <= n < |p.nodes| && p.nodes[n].spawning.Some? ==>
          MayServe(p, p.nodes[n].spawning.value.request, p.nodes[n].spawning.value.worker))
  }

  function Arrival(l: Ledger, r: RequestId): nat { if r in l.entries then l.entries[r].arrival else 0 }

  /** Requests leave the queue in the order they joined it. */
  ghost predicate Ordered(p: Pool) {
    forall n :: 0 <= n < |p.nodes| ==> OrderedNode(p.ledger, p.nodes[n])
  }

  ghost predicate OrderedNode(l: Ledger, s: Subnode) {
    && (forall i, j :: 0 <= i < j < |s.queue| ==> Arrival(l, s.queue[i]) < Arrival(l, s.queue[j]))
    && (forall i, j :: 0 <= i < j < |s.shifted| ==> s.shifted[i] < s.shifted[j])
    && (forall i, r :: 0 <= i < |s.shifted| && r in s.queue ==> s.shifted[i] < Arrival(l, r))
    && (forall i :: 0 <= i < |s.shifted| ==> s.shifted[i] < s.arrivals)
    && (forall r :: r in s.queue ==> Arrival(l, r) < s.arrivals)
  }

  ghost predicate Engaged(p: Pool, w: WorkerId, exempt: set<WorkerId>) {
    || w in exempt || w in p.ledger.draining.Values || (w in p.workers && p.workers[w].pending != [])
    || Stalled(p.ledger.sent, w)
  }

  /** A queue means every worker is busy or draining, or was refused the last thing it was sent. */
  ghost predicate Busy(p: Pool, exempt: set<WorkerId>) {
    forall n, w :: 0 <= n < |p.nodes| && p.nodes[n].queue != [] && w in p.nodes[n].workers ==> Engaged(p, w, exempt)
  }

  datatype Clause = IsPlaced | IsStaffed | IsWithinMax | IsMatched | IsOrdered | IsServed | IsBusy

  ghost predicate Holds(c: Clause, p: Pool, exempt: set<WorkerId>) {
    match c
    case IsPlaced => Placed(p)
    case IsStaffed => Staffed(p)
    case IsWithinMax => WithinMax(p)
    case IsMatched => Matched(p)
    case IsOrdered => Ordered(p)
    case IsServed => Served(p)
    case IsBusy => Busy(p, exempt)
  }

  /** All of it; the workers `exempt` are in the middle of being given work. */
  ghost predicate Sound(p: Pool, exempt: set<WorkerId>) {
    forall c: Clause :: Holds(c, p, exempt)
  }

  lemma Unpack(p: Pool, exempt: set<WorkerId>)
    requires Sound(p, exempt)
    ensures Placed(p) && Staffed(p) && WithinMax(p) && Matched(p) && Ordered(p) && Served(p) && Busy(p, exempt)
  {
    assert Holds(IsPlaced, p, exempt) && Holds(IsStaffed, p, exempt) && Holds(IsWithinMax, p, exempt);
    assert Holds(IsMatched, p, exempt) && Holds(IsOrdered, p, exempt) && Holds(IsServed, p, exempt) && Holds(IsBusy, p, exempt);
  }

  lemma Orderly(p: Pool, exempt: set<WorkerId>)
    requires Sound(p, exempt)
    ensures Placed(p) && Ordered(p)
  {
    assert Holds(IsPlaced, p, exempt) && Holds(IsOrdered, p, exempt);
  }

  lemma Pack(p: Pool, exempt: set<WorkerId>)
    requires Placed(p) && Staffed(p) && WithinMax(p) && Matched(p) && Ordered(p) && Served(p) && Busy(p, exempt)
    ensures Sound(p, exempt)
  {
  }

  // ---------------------------------------------------------------------------
  // Sequences
  // ---------------------------------------------------------------------------

  lemma {:induction false} WithoutFacts(s: seq<nat>, x: nat)
    requires NoDup(s)
    ensures NoDup(Without(s, x))
    ensures forall y :: y in Without(s, x) <==> y in s && y != x
  {
    if s != [] {
      assert NoDup(s[1..]);
      WithoutFacts(s[1..], x);
      assert s == [s[0]] + s[1..];
      assert s[0] !in s[1..];
    }
  }

  lemma AppendNoDup(s: seq<nat>, t: seq<nat>)
    requires NoDup(s) && NoDup(t) && forall x :: x in s ==> x !in t
    ensures NoDup(s + t)
  {
    var u := s + t;
    forall i, j | 0 <= i < j < |u| ensures u[i] != u[j] {
      if i < |s| <= j {
        assert u[i] in s && u[j] == t[j - |s|] && u[j] in t;
      }
    }
  }

  // ---------------------------------------------------------------------------
  // What each invariant depends on
  // ---------------------------------------------------------------------------

  ghost predicate SameCredentials(p: Pool, q: Pool) {
    forall w :: w in p.workers ==>
      w in q.workers && q.workers[w].uid == p.workers[w].uid && q.workers[w].gid == p.workers[w].gid
  }

  lemma MatchedFrame(p: Pool, q: Pool)
    requires Matched(p) && SameCredentials(p, q)
    requires q.ledger.sent == p.ledger.sent && q.ledger.identities == p.ledger.identities
    requires q.ledger.draining.Keys <= p.ledger.draining.Keys
    requires forall r :: r in q.ledger.draining ==> q.ledger.draining[r] == p.ledger.draining[r]
    requires forall n :: 0 <= n < |q.nodes| && q.nodes[n].spawning.Some? ==>
               n < |p.nodes| && q.nodes[n].spawning == p.nodes[n].spawning
    ensures Matched(q)
  {
    assert forall r, w :: MayServe(p, r, w) ==> MayServe(q, r, w);
  }

  ghost predicate SameOrder(s: Subnode, t: Subnode) {
    (t.queue == s.queue || t.queue == []) && t.shifted == s.shifted && t.arrivals == s.arrivals
  }

  lemma OrderedFrame(p: Pool, q: Pool)
    requires Ordered(p) && q.ledger.entries == p.ledger.entries && |q.nodes| == |p.nodes|
    requires forall n :: 0 <= n < |p.nodes| ==> SameOrder(p.nodes[n], q.nodes[n])
    ensures Ordered(q)
  {
    forall n | 0 <= n < |q.nodes| ensures OrderedNode(q.ledger, q.nodes[n]) {
      assert OrderedNode(p.ledger, p.nodes[n]) && SameOrder(p.nodes[n], q.nodes[n]);
      assert forall r :: Arrival(q.ledger, r) == Arrival(p.ledger, r);
    }
  }

  /** Where `t`'s queue waits, `s`'s did, and `t` lists no other workers. */
  ghost predicate NoMoreWork(s: Subnode, t: Subnode) {
    t.queue != [] ==> s.queue != [] && forall w :: w in t.workers ==> w in s.workers
  }

  lemma BusyFrame(p: Pool, q: Pool, exempt: set<WorkerId>)
    requires Busy(p, exempt) && |q.nodes| == |p.nodes|
    requires forall n :: 0 <= n < |p.nodes| ==> NoMoreWork(p.nodes[n], q.nodes[n])
    requires forall w :: Engaged(p, w, exempt) ==> Engaged(q, w, exempt)
    ensures Busy(q, exempt)
  {
    forall n, w | 0 <= n < |q.nodes| && q.nodes[n].queue != [] && w in q.nodes[n].workers
      ensures Engaged(q, w, exempt)
    {
      assert NoMoreWork(p.nodes[n], q.nodes[n]);
    }
  }

  // ---------------------------------------------------------------------------
  // Settling
  // ---------------------------------------------------------------------------

  /** The same workers in the same lists, with no more to do, and no new queue. */
  ghost predicate Calm(p: Pool, q: Pool) {
    && q.cfg == p.cfg && |q.nodes| == |p.nodes| && q.workers.Keys == p.workers.Keys && q.subnodes == p.subnodes
    && (forall n :: 0 <= n < |p.nodes| ==> CalmNode(p.nodes[n], q.nodes[n]))
    && (forall w :: w in p.workers ==> CalmWorker(p.workers[w], q.workers[w]))
    && CalmLedger(p.ledger, q.ledger)
  }

  ghost predicate CalmNode(s: Subnode, t: Subnode) {
    && t.workers == s.workers && (t.spawning == s.spawning || t.spawning.None?)
    && (t.queue != [] ==> s.queue != [])
  }

  ghost predicate CalmWorker(k: Worker, k': Worker) {
    && k'.node == k.node && k'.uid == k.uid && k'.gid == k.gid && k'.ready == k.ready && k'.removed == k.removed
    && (k.pending == [] ==> k'.pending == []) && (k'.idleTimer ==> k.idleTimer || k.ready)
  }

  ghost predicate CalmLedger(l: Ledger, m: Ledger) {
    && m.identities == l.identities && m.sent == l.sent
    && m.draining.Keys <= l.draining.Keys
    && forall r :: r in m.draining ==> m.draining[r] == l.draining[r]
  }

  lemma CalmStaffed(p: Pool, q: Pool)
    requires Staffed(p) && Calm(p, q)
    ensures Staffed(q)
  {
    forall v | v in q.workers ensures WorkerFits(v, q.workers[v], q.nodes) {
      assert WorkerFits(v, p.workers[v], p.nodes) && CalmWorker(p.workers[v], q.workers[v]);
    }
    forall n | 0 <= n < |q.nodes| ensures NodeFits(n, q.nodes[n], q.workers) {
      assert NodeFits(n, p.nodes[n], p.workers) && CalmNode(p.nodes[n], q.nodes[n]);
    }
  }

  lemma CalmServed(p: Pool, q: Pool)
    requires WithinMax(p) && Served(p) && Calm(p, q)
    ensures WithinMax(q) && Served(q)
  {
    assert forall n :: 0 <= n < |p.nodes| ==> CalmNode(p.nodes[n], q.nodes[n]);
  }

  lemma CalmRest(p: Pool, q: Pool, exempt: set<WorkerId>, exempt': set<WorkerId>)
    requires Calm(p, q) && Matched(p) && Busy(p, exempt) && exempt <= exempt'
    requires forall v :: Engaged(p, v, exempt) ==> Engaged(q, v, exempt')
    ensures Matched(q) && Busy(q, exempt')
  {
    assert forall n :: 0 <= n < |p.nodes| ==> CalmNode(p.nodes[n], q.nodes[n]) && NoMoreWork(p.nodes[n], q.nodes[n]);
    MatchedFrame(p, q);
    assert forall v :: Engaged(p, v, exempt) ==> Engaged(p, v, exempt');
    BusyFrame(p, q, exempt');
  }

  lemma CalmSound(p: Pool, q: Pool, exempt: set<WorkerId>, exempt': set<WorkerId>)
    requires Sound(p, exempt) && Calm(p, q) && Placed(q) && Ordered(q) && exempt <= exempt'
    requires forall v :: Engaged(p, v, exempt) ==> Engaged(q, v, exempt')
    ensures Sound(q, exempt')
  {
    forall c: Clause ensures Holds(c, q, exempt') {
      match c
      case IsPlaced =>
      case IsOrdered =>
      case IsStaffed => assert Holds(IsStaffed, p, exempt); CalmStaffed(p, q);
      case IsWithinMax => assert Holds(IsWithinMax, p, exempt) && Holds(IsServed, p, exempt); CalmServed(p, q);
      case IsServed => assert Holds(IsWithinMax, p, exempt) && Holds(IsServed, p, exempt); CalmServed(p, q);
      case IsMatched => assert Holds(IsMatched, p, exempt) && Holds(IsBusy, p, exempt); CalmRest(p, q, exempt, exempt');
      case IsBusy => assert Holds(IsMatched, p, exempt) && Holds(IsBusy, p, exempt); CalmRest(p, q, exempt, exempt');
    }
  }

  lemma SettlePlaced(p: Pool, r: RequestId, o: Outcome)
    requires Placed(p) && r in p.ledger.inHand
    ensures Placed(Finish(p, r, o))
  {
    var q := Finish(p, r, o);
    assert Occurs(p, r, InHand);
    assert !Occurs(p, r, Settled);
    forall s, pl ensures Occurs(q, s, pl) <==> At(q.ledger, s, pl) {
      assert Occurs(p, s, pl) <==> At(p.ledger, s, pl);
    }
    AppendNoDup(p.ledger.settled, [r]);
  }

  lemma SettleSound(p: Pool, r: RequestId, o: Outcome, exempt: set<WorkerId>)
    requires Sound(p, exempt) && r in p.ledger.inHand
    ensures Sound(Finish(p, r, o), exempt)
  {
    Orderly(p, exempt);
    SettlePlaced(p, r, o);
    OrderedFrame(p, Finish(p, r, o));
    CalmSound(p, Finish(p, r, o), exempt, exempt);
  }

  // ---------------------------------------------------------------------------
  // Removing a worker
  // ---------------------------------------------------------------------------

  lemma UnlistOccurs(p: Pool, w: WorkerId, s: RequestId, pl: Place)
    requires Placed(p) && Known(p, w) && !p.workers[w].removed
    ensures Occurs(Unlist(p, w), s, pl) <==> At(Unlist(p, w).ledger, s, pl)
  {
    assert Occurs(p, s, pl) <==> At(p.ledger, s, pl);
    assert Occurs(p, s, InFlight(w)) <==> At(p.ledger, s, InFlight(w));
    assert Unlist(p, w).ledger.settled == p.ledger.settled + p.workers[w].pending;
  }

  lemma UnlistLedger(p: Pool, w: WorkerId)
    requires Placed(p) && Known(p, w) && !p.workers[w].removed
    ensures Timed(Unlist(p, w).ledger) && NoDup(Unlist(p, w).ledger.settled)
  {
    var k := p.workers[w];
    forall s | s in k.pending ensures At(p.ledger, s, InFlight(w)) && s !in p.ledger.settled {
      assert Occurs(p, s, InFlight(w));
      assert !Occurs(p, s, Settled);
    }
    AppendNoDup(p.ledger.settled, k.pending);
  }

  lemma UnlistPlaced(p: Pool, w: WorkerId)
    requires Placed(p) && Known(p, w) && !p.workers[w].removed
    ensures Placed(Unlist(p, w))
  {
    forall s, pl ensures Occurs(Unlist(p, w), s, pl) <==> At(Unlist(p, w).ledger, s, pl) {
      UnlistOccurs(p, w, s, pl);
    }
    UnlistLedger(p, w);
    WithoutFacts(p.nodes[p.workers[w].node].workers, w);
  }

  lemma UnlistStaffed(p: Pool, w: WorkerId)
    requires Staffed(p) && Known(p, w) && NotSpawning(p, w)
    requires NoDup(p.nodes[p.workers[w].node].workers)
    ensures Staffed(Unlist(p, w))
  {
    var q, n := Unlist(p, w), p.workers[w].node;
    WithoutFacts(p.nodes[n].workers, w);
    forall v | v in q.workers ensures WorkerFits(v, q.workers[v], q.nodes) {
      assert WorkerFits(v, p.workers[v], p.nodes);
    }
    forall m | 0 <= m < |q.nodes| ensures NodeFits(m, q.nodes[m], q.workers) {
      assert NodeFits(m, p.nodes[m], p.workers);
    }
  }

  lemma UnlistWithin(p: Pool, w: WorkerId)
    requires WithinMax(p) && Known(p, w)
    ensures WithinMax(Unlist(p, w))
  {
  }

  lemma UnlistRest(p: Pool, w: WorkerId, exempt: set<WorkerId>)
    requires NoDups(p) && Known(p, w) && Matched(p) && Ordered(p) && Busy(p, exempt)
    ensures Matched(Unlist(p, w)) && Ordered(Unlist(p, w)) && Busy(Unlist(p, w), exempt)
  {
    WithoutFacts(p.nodes[p.workers[w].node].workers, w);
    MatchedFrame(p, Unlist(p, w));
    OrderedFrame(p, Unlist(p, w));
    BusyFrame(p, Unlist(p, w), exempt);
  }

  lemma RejectedPlace(l: Ledger, m: Ledger, rs: seq<RequestId>, s: RequestId, pl: Place)
    requires m == RejectQueue(l, rs)
    ensures At(m, s, pl) <==> if s in rs then pl == Settled else At(l, s, pl)
    ensures s in m.settled <==> s in l.settled || s in rs
  {
  }

  /** Rejecting the whole of a queue settles exactly the requests in it. */
  lemma RejectQueueOccurs(p: Pool, q: Pool, n: NodeId, s: RequestId, pl: Place)
    requires (Occurs(p, s, pl) <==> At(p.ledger, s, pl)) && (Occurs(p, s, Queued(n)) <==> At(p.ledger, s, Queued(n)))
    requires n < |p.nodes| && q.workers == p.workers
    requires q.nodes == p.nodes[n := p.nodes[n].(queue := [])] && q.ledger == RejectQueue(p.ledger, p.nodes[n].queue)
    ensures Occurs(q, s, pl) <==> At(q.ledger, s, pl)
  {
    RejectedPlace(p.ledger, q.ledger, p.nodes[n].queue, s, pl);
    match pl
    case Settled => assert s in q.ledger.settled <==> s in p.ledger.settled || s in p.nodes[n].queue;
    case Queued(m) => assert Occurs(q, s, pl) <==> m != n && Occurs(p, s, pl);
    case _ => assert Occurs(q, s, pl) <==> Occurs(p, s, pl);
  }

  lemma RejectQueuePlaced(p: Pool, q: Pool, n: NodeId)
    requires Placed(p) && n < |p.nodes| && q.workers == p.workers
    requires q.nodes == p.nodes[n := p.nodes[n].(queue := [])] && q.ledger == RejectQueue(p.ledger, p.nodes[n].queue)
    ensures Placed(q)
  {
    forall s, pl ensures Occurs(q, s, pl) <==> At(q.ledger, s, pl) {
      RejectQueueOccurs(p, q, n, s, pl);
    }
    RejectQueueLedger(p, n);
    assert NoDup(q.ledger.settled) && Timed(q.ledger);
  }

  lemma RejectQueueLedger(p: Pool, n: NodeId)
    requires Placed(p) && n < |p.nodes|
    ensures NoDup(RejectQueue(p.ledger, p.nodes[n].queue).settled) && Timed(RejectQueue(p.ledger, p.nodes[n].queue))
  {
    forall s | s in p.nodes[n].queue ensures At(p.ledger, s, Queued(n)) && s !in p.ledger.settled {
      assert Occurs(p, s, Queued(n)) && !Occurs(p, s, Settled);
    }
    AppendNoDup(p.ledger.settled, p.nodes[n].queue);
  }

  lemma ClosePlaced(p: Pool, n: NodeId)
    requires Placed(p) && n < |p.nodes|
    ensures Placed(CloseIfEmpty(p, n))
  {
    if p.nodes[n].workers == [] {
      RejectQueuePlaced(p, CloseIfEmpty(p, n), n);
    }
  }

  lemma CloseStaffed(p: Pool, n: NodeId)
    requires n < |p.nodes| && Staffed(p) && WithinMax(p)
    ensures Staffed(CloseIfEmpty(p, n)) && WithinMax(CloseIfEmpty(p, n))
  {
    var q := CloseIfEmpty(p, n);
    forall v | v in q.workers ensures WorkerFits(v, q.workers[v], q.nodes) {
      assert WorkerFits(v, p.workers[v], p.nodes);
    }
    forall m | 0 <= m < |q.nodes| ensures NodeFits(m, q.nodes[m], q.workers) && Seats(q.nodes[m]) <= q.cfg.max {
      assert NodeFits(m, p.nodes[m], p.workers);
    }
  }

  lemma CloseServed(p: Pool, n: NodeId)
    requires n < |p.nodes|
    requires forall m :: 0 <= m < |p.nodes| && m != n && p.nodes[m].queue != [] ==> p.nodes[m].workers != []
    ensures Served(CloseIfEmpty(p, n))
  {
  }

  lemma CloseRest(p: Pool, n: NodeId, exempt: set<WorkerId>)
    requires n < |p.nodes| && Matched(p) && Ordered(p) && Busy(p, exempt)
    ensures Matched(CloseIfEmpty(p, n)) && Ordered(CloseIfEmpty(p, n)) && Busy(CloseIfEmpty(p, n), exempt)
  {
    MatchedFrame(p, CloseIfEmpty(p, n));
    OrderedFrame(p, CloseIfEmpty(p, n));
    BusyFrame(p, CloseIfEmpty(p, n), exempt);
  }

  /** No subnode is waiting for `w` to start. */
  ghost predicate NotSpawning(p: Pool, w: WorkerId) {
    forall n :: 0 <= n < |p.nodes| && p.nodes[n].spawning.Some? ==> p.nodes[n].spawning.value.worker != w
  }

  /** Sound, but the queue of subnode `n` may have lost its last worker. */
  ghost predicate SoundBut(p: Pool, n: NodeId, exempt: set<WorkerId>) {
    && (forall c: Clause :: c != IsServed ==> Holds(c, p, exempt))
    && (forall m :: 0 <= m < |p.nodes| && m != n && p.nodes[m].queue != [] ==> p.nodes[m].workers != [])
  }

  lemma UnlistSound(p: Pool, w: WorkerId, exempt: set<WorkerId>)
    requires Sound(p, exempt) && Known(p, w) && !p.workers[w].removed && NotSpawning(p, w)
    ensures SoundBut(Unlist(p, w), p.workers[w].node, exempt)
  {
    Unpack(p, exempt);
    UnlistPlaced(p, w);
    UnlistStaffed(p, w);
    UnlistWithin(p, w);
    UnlistRest(p, w, exempt);
  }

  lemma CloseSound(p: Pool, n: NodeId, exempt: set<WorkerId>)
    requires SoundBut(p, n, exempt) && n < |p.nodes|
    ensures Sound(CloseIfEmpty(p, n), exempt)
  {
    assert Holds(IsPlaced, p, exempt) && Holds(IsStaffed, p, exempt) && Holds(IsWithinMax, p, exempt);
    assert Holds(IsMatched, p, exempt) && Holds(IsOrdered, p, exempt) && Holds(IsBusy, p, exempt);
    ClosePlaced(p, n);
    CloseStaffed(p, n);
    CloseServed(p, n);
    CloseRest(p, n, exempt);
    Pack(CloseIfEmpty(p, n), exempt);
  }

  lemma RemoveWorkerSound(p: Pool, w: WorkerId, exempt: set<WorkerId>)
    requires Sound(p, exempt) && NotSpawning(p, w)
    ensures Sound(RemoveWorker(p, w), exempt)
  {
    if Known(p, w) && !p.workers[w].removed {
      UnlistSound(p, w, exempt);
      CloseSound(Unlist(p, w), p.workers[w].node, exempt);
    }
  }

  /** The workers of every list are ready, so none is still being spawned. */
  lemma ListedNotSpawning(p: Pool, n: NodeId, w: WorkerId)
    requires Staffed(p) && n < |p.nodes| && w in p.nodes[n].workers
    ensures NotSpawning(p, w)
  {
  }

  /** Nothing but the workers `gone` and the requests they and their queues held has changed. */
  ghost predicate Spares(p: Pool, q: Pool, gone: set<WorkerId>) {
    && |q.nodes| == |p.nodes| && q.cfg == p.cfg && q.shuttingDown == p.shuttingDown
    && q.ledger.inHand == p.ledger.inHand && q.ledger.identities == p.ledger.identities
    && q.ledger.sent == p.ledger.sent && q.ledger.draining == p.ledger.draining
    && (forall n :: 0 <= n < |p.nodes| ==> q.nodes[n].spawning == p.nodes[n].spawning)
    && (forall v :: v in p.workers ==>
          && v in q.workers && q.workers[v].node == p.workers[v].node
          && q.workers[v].uid == p.workers[v].uid && q.workers[v].gid == p.workers[v].gid
          && q.workers[v].ready == p.workers[v].ready && (p.workers[v].removed ==> q.workers[v].removed)
          && (v !in gone ==> q.workers[v] == p.workers[v]))
  }

  lemma SparesTransitive(p: Pool, q: Pool, r: Pool, a: set<WorkerId>, b: set<WorkerId>)
    requires Spares(p, q, a) && Spares(q, r, b)
    ensures Spares(p, r, a + b)
  {
  }

  lemma UnlistSpares(p: Pool, w: WorkerId)
    requires Known(p, w)
    ensures Spares(p, Unlist(p, w), {w})
  {
  }

  lemma CloseSpares(p: Pool, n: NodeId)
    requires n < |p.nodes|
    ensures Spares(p, CloseIfEmpty(p, n), {})
  {
  }

  lemma RemoveWorkerSpares(p: Pool, w: WorkerId)
    ensures Spares(p, RemoveWorker(p, w), {w})
  {
    if Known(p, w) && !p.workers[w].removed {
      UnlistSpares(p, w);
      CloseSpares(Unlist(p, w), p.workers[w].node);
      SparesTransitive(p, Unlist(p, w), RemoveWorker(p, w), {w}, {});
      assert {w} + {} == {w};
    }
  }

  lemma {:induction false} RemoveAllSpares(p: Pool, ws: seq<WorkerId>)
    ensures Spares(p, RemoveAll(p, ws), SetOf(ws))
    decreases |ws|
  {
    if ws != [] {
      var q := RemoveWorker(p, ws[0]);
      RemoveWorkerSpares(p, ws[0]);
      RemoveAllSpares(q, ws[1..]);
      SparesTransitive(p, q, RemoveAll(q, ws[1..]), {ws[0]}, SetOf(ws[1..]));
      assert SetOf(ws) == {ws[0]} + SetOf(ws[1..]);
    }
  }

  lemma {:induction false} RemoveAllSound(p: Pool, ws: seq<WorkerId>, exempt: set<WorkerId>)
    requires Sound(p, exempt) && forall w :: w in ws ==> NotSpawning(p, w)
    ensures Sound(RemoveAll(p, ws), exempt)
    decreases |ws|
  {
    if ws != [] {
      var q := RemoveWorker(p, ws[0]);
      RemoveWorkerSound(p, ws[0], exempt);
      RemoveWorkerSpares(p, ws[0]);
      forall w | w in ws[1..] ensures NotSpawning(q, w) { assert NotSpawning(p, w); }
      RemoveAllSound(q, ws[1..], exempt);
    }
  }

  lemma EvictSound(p: Pool, user: string, exempt: set<WorkerId>)
    requires Sound(p, exempt)
    ensures Sound(Evict(p, user), exempt)
    ensures Spares(p, Evict(p, user), p.workers.Keys)
  {
    if user in p.subnodes {
      var n := p.subnodes[user];
      Unpack(p, exempt);
      RemoveAllSpares(p, p.nodes[n].workers);
      forall w | w in p.nodes[n].workers ensures NotSpawning(p, w) { ListedNotSpawning(p, n, w); }
      RemoveAllSound(p, p.nodes[n].workers, exempt);
    }
  }

  // ---------------------------------------------------------------------------
  // Sending
  // ---------------------------------------------------------------------------

  lemma SendOccurs(p: Pool, w: WorkerId, r: RequestId, s: RequestId, pl: Place)
    requires Placed(p) && r in p.ledger.inHand && w in p.workers && !p.workers[w].removed
    ensures var q := SendRequest(p, w, r, true);
            Occurs(q, s, pl) <==> At(q.ledger, s, pl)
  {
    assert Occurs(p, r, InHand);
    assert Occurs(p, s, pl) <==> At(p.ledger, s, pl);
    var q := SendRequest(p, w, r, true);
    if s != r {
      assert At(q.ledger, s, pl) <==> At(p.ledger, s, pl);
    }
  }

  /** A refused send only settles the request. */
  lemma SendRefused(p: Pool, w: WorkerId, r: RequestId, accepted: bool)
    requires Placed(p) && r in p.ledger.inHand && w in p.workers && (p.workers[w].removed || !accepted)
    ensures Placed(SendRequest(p, w, r, accepted))
  {
    var q := SendRequest(p, w, r, accepted);
    var t := p.(ledger := p.ledger.(sent := q.ledger.sent));
    forall s, pl ensures Occurs(t, s, pl) <==> At(t.ledger, s, pl) {
      assert Occurs(p, s, pl) <==> At(p.ledger, s, pl);
    }
    SettlePlaced(t, r, WorkerError);
    assert q == Finish(t, r, WorkerError);
  }

  lemma SendPlaced(p: Pool, w: WorkerId, r: RequestId, accepted: bool)
    requires Placed(p) && Staffed(p) && r in p.ledger.inHand && w in p.workers
    ensures Placed(SendRequest(p, w, r, accepted))
  {
    if p.workers[w].removed || !accepted {
      SendRefused(p, w, r, accepted);
    } else {
      var q := SendRequest(p, w, r, true);
      assert Occurs(p, r, InHand);
      assert !Occurs(p, r, InFlight(w));
      forall s, pl ensures Occurs(q, s, pl) <==> At(q.ledger, s, pl) {
        SendOccurs(p, w, r, s, pl);
      }
      AppendNoDup(p.workers[w].pending, [r]);
    }
  }

  lemma SendStaffed(p: Pool, w: WorkerId, r: RequestId, accepted: bool)
    requires Staffed(p) && WithinMax(p) && Served(p) && MayServe(p, r, w) && p.workers[w].ready
    ensures var q := SendRequest(p, w, r, accepted);
            Staffed(q) && WithinMax(q) && Served(q)
  {
    var q := SendRequest(p, w, r, accepted);
    assert q.nodes == p.nodes && q.ledger.draining == p.ledger.draining;
    forall v | v in q.workers ensures WorkerFits(v, q.workers[v], q.nodes) {
      assert WorkerFits(v, p.workers[v], p.nodes);
    }
    forall m | 0 <= m < |q.nodes| ensures NodeFits(m, q.nodes[m], q.workers) {
      assert NodeFits(m, p.nodes[m], p.workers);
    }
  }

  lemma SendMatched(p: Pool, w: WorkerId, r: RequestId, accepted: bool)
    requires Matched(p) && Ordered(p) && MayServe(p, r, w)
    ensures Matched(SendRequest(p, w, r, accepted)) && Ordered(SendRequest(p, w, r, accepted))
  {
    var q := SendRequest(p, w, r, accepted);
    assert forall s, v :: MayServe(p, s, v) ==> MayServe(q, s, v);
    OrderedFrame(p, q);
  }

  lemma {:induction false} StalledAfter(sent: seq<Send>, r: RequestId, w: WorkerId, accepted: bool, v: WorkerId)
    ensures Stalled(sent + [Send(r, w, accepted)], v) <==> if v == w then !accepted else Stalled(sent, v)
  {
    assert Init(sent + [Send(r, w, accepted)]) == sent;
  }

  /** After the send the worker is busy, or was refused it. */
  lemma SendBusy(p: Pool, w: WorkerId, r: RequestId, accepted: bool, exempt: set<WorkerId>)
    requires Staffed(p) && Busy(p, exempt + {w}) && w in p.workers
    ensures Busy(SendRequest(p, w, r, accepted), exempt)
  {
    var q := SendRequest(p, w, r, accepted);
    forall v | Engaged(p, v, exempt + {w}) ensures Engaged(q, v, exempt) {
      StalledAfter(p.ledger.sent, r, w, !p.workers[w].removed && accepted, v);
    }
    assert q.nodes == p.nodes;
  }

  lemma SendSound(p: Pool, w: WorkerId, r: RequestId, accepted: bool, exempt: set<WorkerId>)
    requires Sound(p, exempt + {w}) && r in p.ledger.inHand && MayServe(p, r, w) && p.workers[w].ready
    ensures Sound(SendRequest(p, w, r, accepted), exempt)
    ensures SendRequest(p, w, r, accepted).ledger.inHand == p.ledger.inHand - {r}
  {
    var q, more := SendRequest(p, w, r, accepted), exempt + {w};
    forall c: Clause ensures Holds(c, q, exempt) {
      assert Holds(IsStaffed, p, more);
      match c
      case IsPlaced => assert Holds(IsPlaced, p, more); SendPlaced(p, w, r, accepted);
      case IsStaffed => assert Holds(IsWithinMax, p, more) && Holds(IsServed, p, more); SendStaffed(p, w, r, accepted);
      case IsWithinMax => assert Holds(IsWithinMax, p, more) && Holds(IsServed, p, more); SendStaffed(p, w, r, accepted);
      case IsServed => assert Holds(IsWithinMax, p, more) && Holds(IsServed, p, more); SendStaffed(p, w, r, accepted);
      case IsMatched => assert Holds(IsMatched, p, more) && Holds(IsOrdered, p, more); SendMatched(p, w, r, accepted);
      case IsOrdered => assert Holds(IsMatched, p, more) && Holds(IsOrdered, p, more); SendMatched(p, w, r, accepted);
      case IsBusy => assert Holds(IsBusy, p, more); SendBusy(p, w, r, accepted, exempt);
    }
  }
}
