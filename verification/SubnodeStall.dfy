/**
 A run of the worker pool, from the start, in which a queue waits beside an idle worker: a user's only worker
 is busy with one request while two more are queued; its answer drains the first of them, whose group check
 passes and whose send the worker's channel refuses. The run then goes on: the user's next request takes the
 idle worker, and its answer takes the queue up.
 */
module SubnodeStalls {
  import opened Wrappers
  import opened SubnodeModel

  const ONE_WORKER := Config(1, 1, 0, 60_000)
  const USER := "user"
  const SELF := Identity("user", 1_001, 1_001)

  /** The pool's only worker, ready and sent `pending`. */
  function OnlyWorker(pending: seq<RequestId>): map<WorkerId, Worker> {
    map[0 := Worker(0, 1_001, 1_001, Warm, true, false, false, pending)]
  }

  /** What matters of a pool whose requests are all one user's. The first `asked` request ids are taken. */
  datatype Picture = Picture(
    node: Option<Subnode>, workers: map<WorkerId, Worker>, asked: nat, checking: set<RequestId>,
    draining: map<RequestId, WorkerId>, entries: map<RequestId, QueueEntry>, sent: seq<Send>)

  ghost predicate Shows(p: Pool, pic: Picture) {
    && p.cfg == ONE_WORKER && !p.shuttingDown && p.workers == pic.workers
    && (if pic.node.None? then p.nodes == [] && p.subnodes == map[]
        else p.nodes == [pic.node.value] && p.subnodes == map[USER := 0] && pic.node.value.user == USER)
    && (forall r: RequestId :: r in p.ledger.identities <==> r < pic.asked)
    && (forall r: RequestId :: r in p.ledger.identities ==> p.ledger.identities[r] == SELF)
    && p.ledger.checking == pic.checking && p.ledger.draining == pic.draining
    && p.ledger.entries == pic.entries && p.ledger.sent == pic.sent
  }

  datatype Detail = TheRun | TheView

  /** A run whose last state the picture shows; behind a quantifier for lemmas that only pass it on. */
  ghost predicate Scene(states: seq<Pool>, events: seq<Event>, pic: Picture) {
    forall d: Detail :: Has(states, events, pic, d)
  }

  ghost predicate Has(states: seq<Pool>, events: seq<Event>, pic: Picture, d: Detail) {
    states != [] &&
    match d
    case TheRun => IsRun(states, events)
    case TheView => Shows(Last(states), pic)
  }

  /** The run goes on with an event that leaves what `pic'` shows. */
  lemma GoesOn(states: seq<Pool>, events: seq<Event>, pic: Picture, ev: Event, pic': Picture)
    returns (more: seq<Pool>, evs: seq<Event>)
    requires Scene(states, events, pic) && states != []
    requires Enabled(Last(states), ev) && Shows(Next(Last(states), ev), pic')
    ensures Scene(more, evs, pic') && more != []
  {
    assert Has(states, events, pic, TheRun);
    more, evs := states + [Next(Last(states), ev)], events + [ev];
  }

  // ---------------------------------------------------------------------------
  // One event at a time
  // ---------------------------------------------------------------------------

  lemma Asks(p: Pool, pic: Picture) returns (pic': Picture)
    requires Shows(p, pic)
    ensures var ev := Dispatch(pic.asked, SELF, false); Enabled(p, ev) && Shows(Next(p, ev), pic')
    ensures pic' == pic.(asked := pic.asked + 1, checking := pic.checking + {pic.asked})
  {
    pic' := pic.(asked := pic.asked + 1, checking := pic.checking + {pic.asked});
  }

  /** The group check of the user's first request ends: the user gets a subnode. */
  lemma FirstIsChecked(p: Pool, pic: Picture, r: RequestId) returns (pic': Picture)
    requires Shows(p, pic) && pic.node.None? && pic.checking == {r} && r < pic.asked && r !in pic.draining
    ensures Enabled(p, Checked(r, None)) && Shows(Next(p, Checked(r, None)), pic')
    ensures pic' == pic.(node := Some(Subnode(USER, [], [], [r], None, 0, [])), checking := {})
  {
    var s := Subnode(USER, [], [], [r], None, 0, []);
    pic' := pic.(node := Some(s), checking := {});
    assert [] + [r] == [r] && pic.draining - {r} == pic.draining;
    var q := Next(p, Checked(r, None));
    assert q.nodes == [s];
  }

  lemma NextIsChecked(p: Pool, pic: Picture, r: RequestId) returns (pic': Picture)
    requires Shows(p, pic) && pic.node.Some? && pic.node.value.waiting == [] && pic.checking == {r} && r < pic.asked
    requires r !in pic.draining
    ensures Enabled(p, Checked(r, None)) && Shows(Next(p, Checked(r, None)), pic')
    ensures pic' == pic.(node := Some(pic.node.value.(waiting := [r])), checking := {})
  {
    var s := pic.node.value.(waiting := [r]);
    pic' := pic.(node := Some(s), checking := {});
    assert [] + [r] == [r] && pic.draining - {r} == pic.draining;
    assert Next(p, Checked(r, None)).nodes == [s];
  }

  /** The lock's holder starts the pool's worker. */
  lemma LockForks(p: Pool, pic: Picture, r: RequestId) returns (pic': Picture)
    requires Shows(p, pic) && pic.node == Some(Subnode(USER, [], [], [r], None, 0, [])) && r < pic.asked
    requires pic.workers == map[] && r !in pic.draining && r !in pic.checking
    ensures var ev := LockRuns(0, Some(0), true, 0); Enabled(p, ev) && Shows(Next(p, ev), pic')
    ensures pic' == pic.(node := Some(Subnode(USER, [], [], [], Some(Spawn(r, 0)), 0, [])),
                         workers := map[0 := Worker(0, 1_001, 1_001, Warm, false, false, false, [])])
  {
    var s := Subnode(USER, [], [], [], Some(Spawn(r, 0)), 0, []);
    pic' := pic.(node := Some(s), workers := map[0 := Worker(0, 1_001, 1_001, Warm, false, false, false, [])]);
    var t := TakeLock(p, 0);
    assert t.nodes == [Subnode(USER, [], [], [], None, 0, [])] by { assert [r][1..] == []; }
    assert Stale(t, t.nodes[0].workers, SELF) == [];
    var ready := t.(subnodes := t.subnodes[USER := 0]);
    assert Prepare(t, 0, SELF) == ready && ready.subnodes == map[USER := 0];
    assert FirstIdle(ready, []).None?;
    var q := Next(p, LockRuns(0, Some(0), true, 0));
    assert q == Fork(ready, 0, r, 0);
    assert q.nodes == [s];
  }

  /** An accepted send to the idle worker. */
  lemma SendShows(p: Pool, pic: Picture, r: RequestId)
    requires Shows(p, pic) && pic.workers == OnlyWorker([])
    ensures Shows(SendRequest(p, 0, r, true), pic.(workers := OnlyWorker([r]), sent := pic.sent + [Send(r, 0, true)]))
  {
    assert [] + [r] == [r];
    assert SendRequest(p, 0, r, true).workers == OnlyWorker([r]);
  }

  lemma WorkerJoins(p: Pool, pic: Picture, r: RequestId)
    requires Shows(p, pic) && pic.node == Some(Subnode(USER, [], [], [], Some(Spawn(r, 0)), 0, []))
    requires pic.workers == map[0 := Worker(0, 1_001, 1_001, Warm, false, false, false, [])]
    requires r !in pic.draining && r !in pic.checking
    ensures Enabled(p, SpawnReady(0, true))
    ensures Next(p, SpawnReady(0, true)) == SendRequest(Join(EndSpawn(p, 0), 0, 0), 0, r, true)
    ensures Shows(Join(EndSpawn(p, 0), 0, 0),
                  pic.(node := Some(Subnode(USER, [0], [], [], None, 0, [])), workers := OnlyWorker([])))
  {
    var joined := Join(EndSpawn(p, 0), 0, 0);
    assert [] + [0] == [0] && pic.draining - {r} == pic.draining && pic.checking - {r} == pic.checking;
    assert joined.nodes == [Subnode(USER, [0], [], [], None, 0, [])] && joined.workers == OnlyWorker([]);
  }

  lemma WorkerGetsReady(p: Pool, pic: Picture, r: RequestId) returns (pic': Picture)
    requires Shows(p, pic) && pic.node == Some(Subnode(USER, [], [], [], Some(Spawn(r, 0)), 0, []))
    requires pic.workers == map[0 := Worker(0, 1_001, 1_001, Warm, false, false, false, [])]
    requires r !in pic.draining && r !in pic.checking
    ensures var ev := SpawnReady(0, true); Enabled(p, ev) && Shows(Next(p, ev), pic')
    ensures pic' == pic.(node := Some(Subnode(USER, [0], [], [], None, 0, [])), workers := OnlyWorker([r]),
                         sent := pic.sent + [Send(r, 0, true)])
  {
    WorkerJoins(p, pic, r);
    var joined := pic.(node := Some(Subnode(USER, [0], [], [], None, 0, [])), workers := OnlyWorker([]));
    SendShows(Join(EndSpawn(p, 0), 0, 0), joined, r);
    pic' := joined.(workers := OnlyWorker([r]), sent := joined.sent + [Send(r, 0, true)]);
  }

  /** The worker runs as the user, so preparing for the user's request removes nothing. */
  lemma NothingStale(t: Pool, id: Identity)
    requires |t.nodes| == 1 && t.nodes[0].workers == [0] && 0 in t.workers && RunsAs(t.workers[0], id)
    ensures Stale(t, t.nodes[0].workers, id) == []
    ensures Prepare(t, 0, id) == t.(subnodes := t.subnodes[t.nodes[0].user := 0])
  {
    assert Stale(t, [], id) == [] && [0][1..] == [];
  }

  /** So what runs under the lock is the choice what to do with the request. */
  lemma LockAssigns(p: Pool, pic: Picture, r: RequestId, pending: seq<RequestId>)
    requires Shows(p, pic) && pic.node.Some? && pic.workers == OnlyWorker(pending) && r < pic.asked
    requires pic.node.value.workers == [0] && pic.node.value.waiting == [r] && pic.node.value.spawning.None?
    requires r !in pic.draining && r !in pic.checking
    ensures CanLock(p, 0) && Shows(TakeLock(p, 0), pic.(node := Some(pic.node.value.(waiting := []))))
    ensures RunLock(p, 0, None, true, 0) == Assign(TakeLock(p, 0), 0, r, None, true, 0)
  {
    var t := TakeLock(p, 0);
    assert t.nodes == [pic.node.value.(waiting := [])] by { assert [r][1..] == []; }
    assert pic.draining - {r} == pic.draining && pic.checking - {r} == pic.checking;
    NothingStale(t, SELF);
    assert t.subnodes[USER := 0] == t.subnodes;
    assert t.(subnodes := t.subnodes) == t;
  }

  lemma EnqueueShows(p: Pool, pic: Picture, r: RequestId)
    requires Shows(p, pic) && pic.node.Some?
    ensures var s := pic.node.value;
            Shows(Enqueue(p, 0, r, 0), pic.(node := Some(s.(queue := s.queue + [r], arrivals := s.arrivals + 1)),
                                            entries := pic.entries[r := QueueEntry(60_000, s.arrivals)]))
  {
    var s := pic.node.value;
    assert Enqueue(p, 0, r, 0).nodes == [s.(queue := s.queue + [r], arrivals := s.arrivals + 1)];
  }

  /** The worker is busy and there may be no other: the lock's holder queues its request. */
  lemma LockQueues(p: Pool, pic: Picture, r: RequestId, busy: RequestId) returns (pic': Picture)
    requires Shows(p, pic) && pic.node.Some? && pic.workers == OnlyWorker([busy]) && r < pic.asked
    requires r !in pic.draining && r !in pic.checking
    requires pic.node.value.workers == [0] && pic.node.value.waiting == [r] && pic.node.value.spawning.None?
    ensures CanLock(p, 0) && Shows(RunLock(p, 0, None, true, 0), pic')
    ensures var s := pic.node.value;
            pic' == pic.(node := Some(s.(waiting := [], queue := s.queue + [r], arrivals := s.arrivals + 1)),
                         entries := pic.entries[r := QueueEntry(60_000, s.arrivals)])
  {
    var s, t := pic.node.value, TakeLock(p, 0);
    LockAssigns(p, pic, r, [busy]);
    BusyOrIdle(t, [busy]);
    EnqueueShows(t, pic.(node := Some(s.(waiting := []))), r);
    pic' := pic.(node := Some(s.(waiting := [], queue := s.queue + [r], arrivals := s.arrivals + 1)),
                 entries := pic.entries[r := QueueEntry(60_000, s.arrivals)]);
  }

  lemma BusyOrIdle(t: Pool, pending: seq<RequestId>)
    requires t.workers == OnlyWorker(pending)
    ensures FirstIdle(t, [0]) == if pending == [] then Some(0) else None
  {
    assert [0][1..] == [] && FirstIdle(t, []).None?;
  }

  /** The worker is idle, so the lock's holder sends it the request, whatever waits in the queue. */
  lemma LockReuses(p: Pool, pic: Picture, r: RequestId) returns (pic': Picture)
    requires Shows(p, pic) && pic.node.Some? && pic.workers == OnlyWorker([]) && r < pic.asked
    requires r !in pic.draining && r !in pic.checking
    requires pic.node.value.workers == [0] && pic.node.value.waiting == [r] && pic.node.value.spawning.None?
    ensures CanLock(p, 0) && Shows(RunLock(p, 0, None, true, 0), pic')
    ensures pic' == pic.(node := Some(pic.node.value.(waiting := [])), workers := OnlyWorker([r]),
                         sent := pic.sent + [Send(r, 0, true)])
  {
    var s, t := pic.node.value, TakeLock(p, 0);
    LockAssigns(p, pic, r, []);
    BusyOrIdle(t, []);
    SendShows(t, pic.(node := Some(s.(waiting := []))), r);
    pic' := pic.(node := Some(s.(waiting := [])), workers := OnlyWorker([r]), sent := pic.sent + [Send(r, 0, true)]);
  }

  /** The worker answers, and the drain takes the head of the queue to its group check. */
  lemma AnswerDrains(p: Pool, pic: Picture, done: RequestId, head: RequestId, rest: seq<RequestId>, uidBlocked: nat -> bool)
    returns (pic': Picture)
    requires Shows(p, pic) && pic.node.Some? && pic.workers == OnlyWorker([done]) && !uidBlocked(1_001)
    requires pic.node.value.workers == [0] && pic.node.value.queue == [head] + rest
    requires head < pic.asked && head in pic.entries && pic.entries[head].deadline >= 0
    requires pic.draining == map[] && pic.checking == {}
    ensures var ev := Response(0, done, 0, uidBlocked); Enabled(p, ev) && Shows(Next(p, ev), pic')
    ensures var s := pic.node.value;
            pic' == pic.(node := Some(s.(queue := rest, shifted := s.shifted + [pic.entries[head].arrival])),
                         workers := OnlyWorker([]), draining := map[head := 0])
  {
    var s := pic.node.value;
    var s' := s.(queue := rest, shifted := s.shifted + [pic.entries[head].arrival]);
    pic' := pic.(node := Some(s'), workers := OnlyWorker([]), draining := map[head := 0]);
    var t := TakeBack(p, 0, done);
    assert Without([done], done) == [] && t.workers == OnlyWorker([]);
    assert ([head] + rest)[0] == head && ([head] + rest)[1..] == rest;
    var q := Suspend(Shift(t, 0), head, 0);
    assert DrainTurn(t, 0, 0, uidBlocked) == Stop(q);
    assert Drain(t, 0, 0, uidBlocked) == q;
    assert q.nodes == [s'] && q.ledger.draining == map[head := 0];
  }

  /** The group check ends well, and the send is refused. */
  lemma SendIsRefused(p: Pool, pic: Picture, head: RequestId, uidBlocked: nat -> bool) returns (pic': Picture)
    requires Shows(p, pic) && pic.workers == OnlyWorker([]) && pic.draining == map[head := 0]
    requires head < pic.asked && pic.checking == {}
    ensures var ev := DrainChecked(head, None, false, 0, uidBlocked); Enabled(p, ev) && Shows(Next(p, ev), pic')
    ensures pic' == pic.(draining := map[], sent := pic.sent + [Send(head, 0, false)])
  {
    pic' := pic.(draining := map[], sent := pic.sent + [Send(head, 0, false)]);
    assert pic.draining - {head} == map[];
  }

  // ---------------------------------------------------------------------------
  // The run
  // ---------------------------------------------------------------------------

  lemma Starts() returns (states: seq<Pool>, events: seq<Event>, pic: Picture)
    ensures Scene(states, events, pic) && states != [] && pic == Picture(None, map[], 0, {}, map[], map[], [])
  {
    states, events := [Pool(ONE_WORKER, map[], [], map[], NO_REQUESTS, false)], [];
    pic := Picture(None, map[], 0, {}, map[], map[], []);
    assert Initial(states[0]) && IsRun(states, events) && Shows(Last(states), pic);
    forall d: Detail ensures Has(states, events, pic, d) {}
  }

  /** A new request of the user is on its way to the lock. */
  lemma Comes(states: seq<Pool>, events: seq<Event>, pic: Picture) returns (more: seq<Pool>, evs: seq<Event>, pic': Picture)
    requires Scene(states, events, pic) && states != [] && pic.checking == {} && pic.asked !in pic.draining
    ensures Scene(more, evs, pic') && more != []
    ensures pic' == pic.(asked := pic.asked + 1, checking := {pic.asked})
  {
    assert Has(states, events, pic, TheView);
    pic' := Asks(Last(states), pic);
    more, evs := GoesOn(states, events, pic, Dispatch(pic.asked, SELF, false), pic');
  }

  lemma FirstInLine(states: seq<Pool>, events: seq<Event>, pic: Picture) returns (more: seq<Pool>, evs: seq<Event>, pic': Picture)
    requires Scene(states, events, pic) && states != []
    requires pic.node.None? && pic.checking == {0} && 0 < pic.asked && 0 !in pic.draining
    ensures Scene(more, evs, pic') && more != []
    ensures pic' == pic.(node := Some(Subnode(USER, [], [], [0], None, 0, [])), checking := {})
  {
    assert Has(states, events, pic, TheView);
    pic' := FirstIsChecked(Last(states), pic, 0);
    more, evs := GoesOn(states, events, pic, Checked(0, None), pic');
  }

  lemma InLine(states: seq<Pool>, events: seq<Event>, pic: Picture, r: RequestId)
    returns (more: seq<Pool>, evs: seq<Event>, pic': Picture)
    requires Scene(states, events, pic) && states != []
    requires pic.node.Some? && pic.node.value.waiting == [] && pic.checking == {r} && r < pic.asked && r !in pic.draining
    ensures Scene(more, evs, pic') && more != []
    ensures pic' == pic.(node := Some(pic.node.value.(waiting := [r])), checking := {})
  {
    assert Has(states, events, pic, TheView);
    pic' := NextIsChecked(Last(states), pic, r);
    more, evs := GoesOn(states, events, pic, Checked(r, None), pic');
  }

  lemma Forks(states: seq<Pool>, events: seq<Event>, pic: Picture) returns (more: seq<Pool>, evs: seq<Event>, pic': Picture)
    requires Scene(states, events, pic) && states != []
    requires pic == Picture(Some(Subnode(USER, [], [], [0], None, 0, [])), map[], 1, {}, map[], map[], [])
    ensures Scene(more, evs, pic') && more != []
    ensures pic' == Picture(Some(Subnode(USER, [0], [], [], None, 0, [])), OnlyWorker([0]), 1, {}, map[], map[], [Send(0, 0, true)])
  {
    assert Has(states, events, pic, TheView);
    var starting := LockForks(Last(states), pic, 0);
    more, evs := GoesOn(states, events, pic, LockRuns(0, Some(0), true, 0), starting);
    assert Has(more, evs, starting, TheView);
    pic' := WorkerGetsReady(Last(more), starting, 0);
    assert [] + [Send(0, 0, true)] == [Send(0, 0, true)];
    more, evs := GoesOn(more, evs, starting, SpawnReady(0, true), pic');
  }

  lemma Queues(states: seq<Pool>, events: seq<Event>, pic: Picture, r: RequestId)
    returns (more: seq<Pool>, evs: seq<Event>, pic': Picture)
    requires Scene(states, events, pic) && states != []
    requires pic.node.Some? && pic.workers == OnlyWorker([0]) && r < pic.asked && r !in pic.draining && r !in pic.checking
    requires pic.node.value.workers == [0] && pic.node.value.waiting == [r] && pic.node.value.spawning.None?
    ensures Scene(more, evs, pic') && more != []
    ensures var s := pic.node.value;
            pic' == pic.(node := Some(s.(waiting := [], queue := s.queue + [r], arrivals := s.arrivals + 1)),
                         entries := pic.entries[r := QueueEntry(60_000, s.arrivals)])
  {
    assert Has(states, events, pic, TheView);
    pic' := LockQueues(Last(states), pic, r, 0);
    more, evs := GoesOn(states, events, pic, LockRuns(0, None, true, 0), pic');
  }

  lemma Reuses(states: seq<Pool>, events: seq<Event>, pic: Picture, r: RequestId)
    returns (more: seq<Pool>, evs: seq<Event>, pic': Picture)
    requires Scene(states, events, pic) && states != []
    requires pic.node.Some? && pic.workers == OnlyWorker([]) && r < pic.asked && r !in pic.draining && r !in pic.checking
    requires pic.node.value.workers == [0] && pic.node.value.waiting == [r] && pic.node.value.spawning.None?
    ensures Scene(more, evs, pic') && more != []
    ensures pic' == pic.(node := Some(pic.node.value.(waiting := [])), workers := OnlyWorker([r]),
                         sent := pic.sent + [Send(r, 0, true)])
  {
    assert Has(states, events, pic, TheView);
    pic' := LockReuses(Last(states), pic, r);
    more, evs := GoesOn(states, events, pic, LockRuns(0, None, true, 0), pic');
  }

  lemma Answers(states: seq<Pool>, events: seq<Event>, pic: Picture, done: RequestId, head: RequestId,
                rest: seq<RequestId>, uidBlocked: nat -> bool)
    returns (more: seq<Pool>, evs: seq<Event>, pic': Picture)
    requires Scene(states, events, pic) && states != []
    requires pic.node.Some? && pic.workers == OnlyWorker([done]) && !uidBlocked(1_001)
    requires pic.node.value.workers == [0] && pic.node.value.queue == [head] + rest
    requires head < pic.asked && head in pic.entries && pic.entries[head].deadline >= 0
    requires pic.draining == map[] && pic.checking == {}
    ensures Scene(more, evs, pic') && more != []
    ensures var s := pic.node.value;
            pic' == pic.(node := Some(s.(queue := rest, shifted := s.shifted + [pic.entries[head].arrival])),
                         workers := OnlyWorker([]), draining := map[head := 0])
  {
    assert Has(states, events, pic, TheView);
    pic' := AnswerDrains(Last(states), pic, done, head, rest, uidBlocked);
    more, evs := GoesOn(states, events, pic, Response(0, done, 0, uidBlocked), pic');
  }

  lemma Refuses(states: seq<Pool>, events: seq<Event>, pic: Picture, head: RequestId, uidBlocked: nat -> bool)
    returns (more: seq<Pool>, evs: seq<Event>, pic': Picture)
    requires Scene(states, events, pic) && states != []
    requires pic.workers == OnlyWorker([]) && pic.draining == map[head := 0] && head < pic.asked && pic.checking == {}
    ensures Scene(more, evs, pic') && more != []
    ensures pic' == pic.(draining := map[], sent := pic.sent + [Send(head, 0, false)])
  {
    assert Has(states, events, pic, TheView);
    pic' := SendIsRefused(Last(states), pic, head, uidBlocked);
    more, evs := GoesOn(states, events, pic, DrainChecked(head, None, false, 0, uidBlocked), pic');
  }

  /** One request is with the worker, and two more wait for it. */
  lemma TwoQueued() returns (states: seq<Pool>, events: seq<Event>, pic: Picture)
    ensures Scene(states, events, pic) && states != []
    ensures pic == Picture(Some(Subnode(USER, [0], [1, 2], [], None, 2, [])), OnlyWorker([0]), 3, {}, map[],
                           map[1 := QueueEntry(60_000, 0), 2 := QueueEntry(60_000, 1)], [Send(0, 0, true)])
  {
    states, events, pic := Starts();
    states, events, pic := Comes(states, events, pic);
    states, events, pic := FirstInLine(states, events, pic);
    states, events, pic := Forks(states, events, pic);
    states, events, pic := Comes(states, events, pic);
    states, events, pic := InLine(states, events, pic, 1);
    states, events, pic := Queues(states, events, pic, 1);
    states, events, pic := Comes(states, events, pic);
    states, events, pic := InLine(states, events, pic, 2);
    states, events, pic := Queues(states, events, pic, 2);
    assert [] + [1] + [2] == [1, 2];
  }

  /** The worker answers, and is refused the first of them. */
  lemma StalledPicture(uidBlocked: nat -> bool) returns (states: seq<Pool>, events: seq<Event>, pic: Picture)
    requires !uidBlocked(1_001)
    ensures Scene(states, events, pic) && states != []
    ensures pic == Picture(Some(Subnode(USER, [0], [2], [], None, 2, [0])), OnlyWorker([]), 3, {}, map[],
                           map[1 := QueueEntry(60_000, 0), 2 := QueueEntry(60_000, 1)],
                           [Send(0, 0, true), Send(1, 0, false)])
  {
    states, events, pic := TwoQueued();
    assert [1, 2] == [1] + [2];
    states, events, pic := Answers(states, events, pic, 0, 1, [2], uidBlocked);
    states, events, pic := Refuses(states, events, pic, 1, uidBlocked);
    assert [] + [0] == [0] && [Send(0, 0, true)] + [Send(1, 0, false)] == [Send(0, 0, true), Send(1, 0, false)];
  }

  /** A run from the start that ends with a queue beside a worker that is listed, live and idle, with no drain
      under way and nothing in line for the lock. */
  lemma QueueWaitsBesideIdleWorker() returns (states: seq<Pool>, events: seq<Event>)
    ensures IsRun(states, events) && |Last(states).nodes| == 1
    ensures var p := Last(states);
            && p.nodes[0].queue != [] && 0 in p.nodes[0].workers && Idle(p, 0) && !p.workers[0].removed
            && p.ledger.draining == map[] && p.nodes[0].waiting == [] && Stalled(p.ledger.sent, 0)
  {
    var pic: Picture;
    states, events, pic := StalledPicture(u => false);
    assert Has(states, events, pic, TheRun) && Has(states, events, pic, TheView);
    assert Last(pic.sent) == Send(1, 0, false);
  }

  /** From there the user's next request goes past the queue to the idle worker, and the answer to it takes
      the queue up again. */
  lemma NextRequestTakesQueueUp() returns (states: seq<Pool>, events: seq<Event>)
    ensures IsRun(states, events) && |Last(states).nodes| == 1
    ensures var p := Last(states);
            && p.ledger.sent == [Send(0, 0, true), Send(1, 0, false), Send(3, 0, true)]
            && p.nodes[0].queue == [] && p.ledger.draining == map[2 := 0] && !Stalled(p.ledger.sent, 0)
  {
    var pic: Picture;
    var allow := (u: nat) => false;
    states, events, pic := StalledPicture(allow);
    states, events, pic := Comes(states, events, pic);
    states, events, pic := InLine(states, events, pic, 3);
    states, events, pic := Reuses(states, events, pic, 3);
    assert [2] == [2] + [];
    states, events, pic := Answers(states, events, pic, 3, 2, [], allow);
    assert Has(states, events, pic, TheRun) && Has(states, events, pic, TheView);
    assert Last(pic.sent) == Send(3, 0, true);
    assert [Send(0, 0, true), Send(1, 0, false)] + [Send(3, 0, true)] == [Send(0, 0, true), Send(1, 0, false), Send(3, 0, true)];
  }
}
