/**
 The relay's registry of executor connections and of the calls awaiting an answer from one.
 */
module Registry {
  import opened Wrappers

  type ExecutorId = string
  type RequestId = string

  /** Two sockets are different connections even when the same executor opened both. */
  datatype Connection = Connection(socket: nat, executorId: ExecutorId)

  datatype Settlement = Answered(on: Connection) | TimedOut | Disconnected(on: Connection)

  /** `owner` and `settlements` record, for every call ever made, whom it was sent to and how it was
      settled; `known` is every connection there ever was. */
  datatype RegistryState = RegistryState(
    connections: map<ExecutorId, Connection>,
    pending: map<RequestId, ExecutorId>,
    timers: set<RequestId>,
    owner: map<RequestId, ExecutorId>,
    settlements: map<RequestId, seq<Settlement>>,
    known: set<Connection>)

  datatype ResolveResult = Resolved | NotFound | OwnerMismatch

  function SettlementsOf(s: RegistryState, r: RequestId): seq<Settlement> {
    if r in s.settlements then s.settlements[r] else []
  }

  function Settle(s: RegistryState, r: RequestId, how: Settlement): RegistryState {
    s.(pending := s.pending - {r}, timers := s.timers - {r},
       settlements := s.settlements[r := SettlementsOf(s, r) + [how]])
  }

  function Current(s: RegistryState, c: Connection): bool {
    c.executorId in s.connections && s.connections[c.executorId] == c
  }

  // ---------------------------------------------------------------------------
  // Events
  // ---------------------------------------------------------------------------

  datatype Event =
    | Connect(c: Connection)
    | Close(c: Connection)
    | Dispatch(r: RequestId, e: ExecutorId)
    | Response(c: Connection, r: RequestId)
    | Timeout(r: RequestId)

  ghost predicate Same(s: RegistryState, t: RegistryState, r: RequestId) {
    && (r in t.pending <==> r in s.pending) && (r in s.pending ==> t.pending[r] == s.pending[r])
    && (r in t.timers <==> r in s.timers) && (r in t.settlements <==> r in s.settlements)
    && SettlementsOf(t, r) == SettlementsOf(s, r)
  }

  predicate WaitsFor(s: RegistryState, c: Connection, r: RequestId) {
    r in s.pending && s.pending[r] == c.executorId
  }

  /** Call `r` is rejected if it waits for `c`'s executor, and else as it was. */
  ghost predicate Rejected(s: RegistryState, c: Connection, t: RegistryState, r: RequestId) {
    if WaitsFor(s, c, r) then
      && r !in t.pending && r !in t.timers && r in t.settlements
      && SettlementsOf(t, r) == SettlementsOf(s, r) + [Disconnected(c)]
    else Same(s, t, r)
  }

  ghost predicate RejectedAll(s: RegistryState, c: Connection, t: RegistryState) {
    && t.connections == s.connections && t.owner == s.owner && t.known == s.known
    && forall r :: Rejected(s, c, t, r)
  }

  ghost predicate Step(s: RegistryState, ev: Event, t: RegistryState) {
    match ev
    case Connect(c) =>
      c !in s.known && t == s.(connections := s.connections[c.executorId := c], known := s.known + {c})
    case Close(c) =>
      c in s.known &&
      if Current(s, c) then RejectedAll(s.(connections := s.connections - {c.executorId}), c, t) else t == s
    case Dispatch(r, e) =>
      r !in s.owner &&
      t == if e in s.connections
           then s.(pending := s.pending[r := e], timers := s.timers + {r}, owner := s.owner[r := e])
           else s
    case Response(c, r) =>
      c in s.known &&
      t == if WaitsFor(s, c, r) then Settle(s, r, Answered(c)) else s
    case Timeout(r) => r in s.timers && t == Settle(s, r, TimedOut)
  }

  const EMPTY := RegistryState(map[], map[], {}, map[], map[], {})

  ghost predicate IsRun(states: seq<RegistryState>, events: seq<Event>) {
    && |states| == |events| + 1 && states[0] == EMPTY
    && forall i :: 0 <= i < |events| ==> Step(states[i], events[i], states[i + 1])
  }

  // ---------------------------------------------------------------------------
  // The invariant
  // ---------------------------------------------------------------------------

  ghost predicate OwnSettlement(s: RegistryState, r: RequestId, how: Settlement) {
    r in s.owner && (how.Answered? || how.Disconnected? ==> how.on.executorId == s.owner[r])
  }

  /** A call that waits has a timer and no settlement; one that does not has exactly one, its own. */
  ghost predicate CallSound(s: RegistryState, r: RequestId) {
    && (r in s.timers <==> r in s.pending)
    && (r in s.pending ==> r in s.owner && s.pending[r] == s.owner[r])
    && (r in s.settlements ==> r in s.owner)
    && (r in s.owner ==> |SettlementsOf(s, r)| == if r in s.pending then 0 else 1)
    && (forall k :: 0 <= k < |SettlementsOf(s, r)| ==> OwnSettlement(s, r, SettlementsOf(s, r)[k]))
  }

  ghost predicate Sound(s: RegistryState) {
    && (forall r :: CallSound(s, r))
    && (forall e :: e in s.connections ==> s.connections[e].executorId == e && s.connections[e] in s.known)
  }

  lemma CallStepSound(s: RegistryState, ev: Event, t: RegistryState, r: RequestId)
    requires Sound(s) && Step(s, ev, t)
    ensures CallSound(t, r)
  {
    assert CallSound(s, r);
    if ev.Close? && Current(s, ev.c) {
      assert Rejected(s.(connections := s.connections - {ev.c.executorId}), ev.c, t, r);
    }
  }

  lemma StepSound(s: RegistryState, ev: Event, t: RegistryState)
    requires Sound(s) && Step(s, ev, t)
    ensures Sound(t)
  {
    forall r ensures CallSound(t, r) { CallStepSound(s, ev, t, r); }
  }

  lemma {:induction false} RunSound(states: seq<RegistryState>, events: seq<Event>, i: nat)
    requires IsRun(states, events) && i < |states|
    ensures Sound(states[i])
    decreases i
  {
    if i > 0 {
      RunSound(states, events, i - 1);
      StepSound(states[i - 1], events[i - 1], states[i]);
    }
  }

  // ---------------------------------------------------------------------------
  // What no event undoes
  // ---------------------------------------------------------------------------

  ghost predicate Grows(s: RegistryState, t: RegistryState) {
    && s.known <= t.known
    && (forall r :: r in s.owner ==> r in t.owner && t.owner[r] == s.owner[r])
    && (forall r :: r in s.owner && r !in s.pending ==> r !in t.pending)
    && (forall r :: SettlementsOf(s, r) <= SettlementsOf(t, r))
  }

  lemma StepGrows(s: RegistryState, ev: Event, t: RegistryState)
    requires Sound(s) && Step(s, ev, t)
    ensures Grows(s, t)
  {
    forall r
      ensures r in s.owner && r !in s.pending ==> r !in t.pending
      ensures SettlementsOf(s, r) <= SettlementsOf(t, r)
    {
      assert CallSound(s, r);
      if ev.Close? && Current(s, ev.c) {
        assert Rejected(s.(connections := s.connections - {ev.c.executorId}), ev.c, t, r);
      }
    }
  }

  lemma {:induction false} RunGrows(states: seq<RegistryState>, events: seq<Event>, i: nat, j: nat)
    requires IsRun(states, events) && i <= j < |states|
    ensures Grows(states[i], states[j])
    decreases j
  {
    if i < j {
      RunGrows(states, events, i, j - 1);
      RunSound(states, events, j - 1);
      StepGrows(states[j - 1], events[j - 1], states[j]);
    }
  }

  // ---------------------------------------------------------------------------
  // Main results
  // ---------------------------------------------------------------------------

  /** A call waits, with its timer armed, until it is settled; it is settled once, for good, and only by
      its own executor's answer, its timeout, or its own executor's disconnect. */
  lemma SettledOnceByItsOwn(states: seq<RegistryState>, events: seq<Event>, i: nat, j: nat, r: RequestId)
    requires IsRun(states, events) && i <= j < |states| && r in states[i].owner
    ensures var s, t := states[i], states[j];
            && (r in t.timers <==> r in t.pending)
            && (r in t.pending ==> SettlementsOf(t, r) == [])
            && (r !in t.pending ==> |SettlementsOf(t, r)| == 1)
            && (r !in s.pending ==> r !in t.pending && SettlementsOf(t, r) == SettlementsOf(s, r))
            && (forall how :: how in SettlementsOf(t, r) && !how.TimedOut? ==> how.on.executorId == s.owner[r])
  {
    RunSound(states, events, i);
    RunSound(states, events, j);
    RunGrows(states, events, i, j);
    assert CallSound(states[i], r) && CallSound(states[j], r);
    forall how | how in SettlementsOf(states[j], r) && !how.TimedOut? ensures how.on.executorId == states[i].owner[r] {
      var k :| 0 <= k < |SettlementsOf(states[j], r)| && SettlementsOf(states[j], r)[k] == how;
      assert OwnSettlement(states[j], r, how);
    }
  }

  /** How a waiting call is settled says what happened: answered on the connection of its executor that answered,
      timed out when its timer fired, disconnected with its executor's current connection; and nothing else
      settles it. */
  lemma SettledAsItHappened(states: seq<RegistryState>, events: seq<Event>, k: nat, r: RequestId)
    requires IsRun(states, events) && k < |events| && r in states[k].pending
    ensures var s, ev, e := states[k], events[k], states[k].pending[r];
            var how := SettlementsOf(states[k + 1], r);
            && (forall c :: how == [Answered(c)] <==> ev == Response(c, r) && c.executorId == e)
            && (how == [TimedOut] <==> ev == Timeout(r))
            && (forall c :: how == [Disconnected(c)] <==> ev == Close(c) && c.executorId == e && e in s.connections && s.connections[e] == c)
            && (r in states[k + 1].pending <==> how == [])
  {
    var s, t := states[k], states[k + 1];
    RunSound(states, events, k);
    assert CallSound(s, r) && Step(s, events[k], t);
    var ev, how := events[k], SettlementsOf(t, r);
    if ev.Close? && Current(s, ev.c) {
      assert Rejected(s.(connections := s.connections - {ev.c.executorId}), ev.c, t, r);
      assert how == if WaitsFor(s, ev.c, r) then [Disconnected(ev.c)] else [];
    } else if ev.Response? && ev.r == r {
      assert how == if WaitsFor(s, ev.c, r) then [Answered(ev.c)] else [];
    } else {
      assert how == if ev == Timeout(r) then [TimedOut] else [];
    }
    assert how != [] ==> how == [how[0]];
  }

  /** A call is sent, and then waits with its timer armed, exactly when its executor has a connection; an
      executor's connection is the last one that was made and has not closed. */
  lemma SentExactlyWhenConnected(states: seq<RegistryState>, events: seq<Event>, k: nat, e: ExecutorId)
    requires IsRun(states, events) && k < |events|
    ensures var s, ev, t := states[k], events[k], states[k + 1];
            && (ev.Dispatch? && ev.e == e ==>
                  if e in s.connections then ev.r in t.pending && t.pending[ev.r] == e && ev.r in t.timers
                  else ev.r !in t.pending)
            && (forall c :: e in t.connections && t.connections[e] == c <==>
                  c.executorId == e && (ev == Connect(c) ||
                    (e in s.connections && s.connections[e] == c && ev != Close(c) && !(ev.Connect? && ev.c.executorId == e))))
  {
    var s, t := states[k], states[k + 1];
    RunSound(states, events, k);
    assert Step(s, events[k], t);
    if events[k].Dispatch? { assert CallSound(s, events[k].r); }
  }

  /** An answer from another executor's connection, or to a call that is not waiting, changes nothing. */
  lemma ForeignAnswerIgnored(states: seq<RegistryState>, events: seq<Event>, i: nat)
    requires IsRun(states, events) && i < |events| && events[i].Response?
    requires events[i].r in states[i].owner ==>
               states[i].owner[events[i].r] != events[i].c.executorId || events[i].r !in states[i].pending
    ensures states[i + 1] == states[i]
  {
    RunSound(states, events, i);
    assert CallSound(states[i], events[i].r);
    assert Step(states[i], events[i], states[i + 1]);
  }

  /** Once another connection took its place, a connection is never current again. */
  lemma {:induction false} StaysReplaced(states: seq<RegistryState>, events: seq<Event>, i: nat, k: nat, c: Connection)
    requires IsRun(states, events) && i <= k < |states| && c in states[i].known && !Current(states[i], c)
    ensures c in states[k].known && !Current(states[k], c)
    decreases k
  {
    if i < k {
      StaysReplaced(states, events, i, k - 1, c);
      assert Step(states[k - 1], events[k - 1], states[k]);
    }
  }

  /** However late the close of a replaced connection comes, it changes neither the newer connection nor
      any call. */
  lemma LateCloseChangesNothing(states: seq<RegistryState>, events: seq<Event>, i: nat, k: nat, c: Connection)
    requires IsRun(states, events) && i <= k < |events| && c in states[i].known && !Current(states[i], c)
    requires events[k] == Close(c)
    ensures states[k + 1] == states[k]
  {
    StaysReplaced(states, events, i, k, c);
    assert Step(states[k], events[k], states[k + 1]);
  }

  /** When the current connection closes, none of its executor's calls is left waiting and every other
      executor's is. */
  lemma CloseSettlesItsCalls(states: seq<RegistryState>, events: seq<Event>, k: nat, c: Connection, r: RequestId)
    requires IsRun(states, events) && k < |events| && events[k] == Close(c) && Current(states[k], c)
    requires r in states[k].pending
    ensures if states[k].pending[r] == c.executorId
            then r !in states[k + 1].pending && SettlementsOf(states[k + 1], r) == [Disconnected(c)]
            else r in states[k + 1].pending && SettlementsOf(states[k + 1], r) == []
  {
    RunSound(states, events, k);
    assert CallSound(states[k], r);
    assert Step(states[k], events[k], states[k + 1]);
    assert Rejected(states[k].(connections := states[k].connections - {c.executorId}), c, states[k + 1], r);
  }

  // ---------------------------------------------------------------------------
  // The registry
  // ---------------------------------------------------------------------------

  class Relay {
    var connections: map<ExecutorId, Connection>
    var pending: map<RequestId, ExecutorId>
    var timers: set<RequestId>
    ghost var owner: map<RequestId, ExecutorId>
    ghost var settlements: map<RequestId, seq<Settlement>>
    ghost var known: set<Connection>

    ghost function State(): RegistryState
      reads this
    {
      RegistryState(connections, pending, timers, owner, settlements, known)
    }

    constructor ()
      ensures State() == EMPTY
    {
      connections, pending, timers, owner, settlements, known := map[], map[], {}, map[], map[], {};
    }

    /** Returns the connection that was registered for the executor before. */
    method RegisterConnection(c: Connection) returns (existing: Option<Connection>)
      requires c !in known
      modifies this
      ensures Step(old(State()), Connect(c), State())
      ensures existing == if c.executorId in old(connections) then Some(old(connections)[c.executorId]) else None
    {
      existing := if c.executorId in connections then Some(connections[c.executorId]) else None;
      connections := connections[c.executorId := c];
      known := known + {c};
    }

    /** Removes the connection if it is the one registered. */
    method UnregisterConnection(c: Connection) returns (removed: bool)
      modifies this`connections
      ensures removed <==> Current(old(State()), c)
      ensures connections == if removed then old(connections) - {c.executorId} else old(connections)
    {
      if c.executorId !in connections || connections[c.executorId] != c { return false; }
      connections := connections - {c.executorId};
      return true;
    }

    method OnClose(c: Connection)
      requires c in known
      modifies this
      ensures Step(old(State()), Close(c), State())
    {
      var removed := UnregisterConnection(c);
      if removed { RejectPendingRpcsForExecutor(c); }
    }

    method RejectPendingRpcsForExecutor(c: Connection)
      modifies this`pending, this`timers, this`settlements
      ensures RejectedAll(old(State()), c, State())
    {
      var todo := pending.Keys;
      while todo != {}
        invariant todo <= pending.Keys <= old(pending.Keys)
        invariant connections == old(connections) && owner == old(owner) && known == old(known)
        invariant forall r :: if r in todo then Same(old(State()), State(), r) else Rejected(old(State()), c, State(), r)
        decreases todo
      {
        var r :| r in todo;
        todo := todo - {r};
        if pending[r] == c.executorId {
          timers := timers - {r};
          pending := pending - {r};
          settlements := settlements[r := SettlementsOf(State(), r) + [Disconnected(c)]];
        }
      }
    }

    /** Sends a call to an executor's connection; false when it has none. */
    method DispatchRpc(r: RequestId, e: ExecutorId) returns (sent: bool)
      requires r !in owner
      modifies this
      ensures Step(old(State()), Dispatch(r, e), State())
      ensures sent <==> e in old(connections)
    {
      if e !in connections { return false; }
      timers := timers + {r};
      pending := pending[r := e];
      owner := owner[r := e];
      return true;
    }

    method ResolvePendingRpc(r: RequestId, c: Connection) returns (result: ResolveResult)
      requires c in known
      modifies this
      ensures Step(old(State()), Response(c, r), State())
      ensures result == if r !in old(pending) then NotFound
                        else if old(pending)[r] != c.executorId then OwnerMismatch else Resolved
      ensures SettlementsOf(State(), r) == SettlementsOf(old(State()), r) + if result == Resolved then [Answered(c)] else []
    {
      if r !in pending { return NotFound; }
      if pending[r] != c.executorId { return OwnerMismatch; }
      settlements := settlements[r := SettlementsOf(State(), r) + [Answered(c)]];
      timers := timers - {r};
      pending := pending - {r};
      return Resolved;
    }

    method OnTimeout(r: RequestId)
      requires r in timers
      modifies this
      ensures Step(old(State()), Timeout(r), State())
      ensures SettlementsOf(State(), r) == SettlementsOf(old(State()), r) + [TimedOut]
    {
      settlements := settlements[r := SettlementsOf(State(), r) + [TimedOut]];
      timers := timers - {r};
      pending := pending - {r};
    }
  }
}
