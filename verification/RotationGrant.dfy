/**
 What a granted rotation is good for: how long, against what, and that it goes through.
 */
module RotationGrants {
  import opened Wrappers
  import opened RotationProtocol
  import opened RotationSafety

  // ---------------------------------------------------------------------------
  // Steps
  // ---------------------------------------------------------------------------

  /** `events` lead through `states`; behind quantifiers for lemmas that only pass it on. */
  ghost predicate Leads(states: seq<System>, events: seq<Event>) {
    |states| == |events| + 1 && forall k :: 0 <= k < |events| ==> LeadsOn(states[k], events[k], states[k + 1])
  }

  ghost predicate LeadsOn(s: System, ev: Event, t: System) { forall side: Side :: Leaves(side, s, ev, t) }

  datatype Side = Before | After

  ghost predicate Leaves(side: Side, s: System, ev: Event, t: System) {
    match side
    case Before => Enabled(s, ev) && Sound(s)
    case After => Enabled(s, ev) && t == Next(s, ev) && Sound(t)
  }

  lemma Goes(s: System, ev: Event, t: System)
    requires Sound(s) && Enabled(s, ev) && t == Next(s, ev) && Sound(t)
    ensures LeadsOn(s, ev, t)
  {
  }

  lemma RunLeads(states: seq<System>, events: seq<Event>, k: nat)
    requires IsRun(states, events) && k < |events|
    ensures LeadsOn(states[k], events[k], states[k + 1])
  {
    RunSound(states, events, k);
    RunSound(states, events, k + 1);
    Goes(states[k], events[k], states[k + 1]);
  }

  // ---------------------------------------------------------------------------
  // The grant
  // ---------------------------------------------------------------------------

  /** A grant given at `now` is usable up to five minutes later, to the millisecond, and only by its executor. */
  lemma GrantLastsFiveMinutes(s: System, e: ExecutorId, minted: TokenId)
    requires Sound(s) && Enabled(s, HandleRotate(e, minted))
    ensures var granted := e !in s.relay.lastRotateAt || s.now - s.relay.lastRotateAt[e] >= 60_000;
            var t := Next(s, HandleRotate(e, minted));
            && Last(t.sockets[e].replies) == (if granted then Granted(minted) else Refused)
            && (granted ==> GrantHolds(t, e, minted, s.now + 300_000))
            && (granted ==> forall later :: Usable(t.relay, minted, later) <==> later <= s.now + 300_000)
            && (granted ==> forall other :: BelongsTo(t.relay, minted, other) <==> other == e)
  {
    assert SocketSound(s, e);
    if !RateLimited(s.relay, e, s.now) {
      var t := Next(s, HandleRotate(e, minted));
      MintLeaves(s.relay, s.owner, s.revoked, e, s.sockets[e].token, minted, s.now);
      assert t.relay.tokens[minted] == Token(None, Some(s.now + 300_000));
      OnlyGrantPending(s, e, minted);
    }
  }

  lemma OnlyGrantPending(s: System, e: ExecutorId, minted: TokenId)
    requires Sound(s) && Enabled(s, HandleRotate(e, minted)) && !RateLimited(s.relay, e, s.now)
    ensures PendingOf(Next(s, HandleRotate(e, minted)).relay, e) == {minted}
  {
    var r := Next(s, HandleRotate(e, minted)).relay;
    forall t ensures t in PendingOf(r, e) <==> t == minted {
      assert t in s.relay.pending && s.relay.pending[t].executor == e ==> t in PendingOf(s.relay, e);
    }
  }

  datatype Facet = Own | Standing

  /** The grant is waiting, or it was taken up and is the executor's token. */
  ghost predicate GrantHolds(s: System, e: ExecutorId, minted: TokenId, until: int) {
    forall facet: Facet :: GrantHas(facet, s.relay, s.owner, e, minted, until)
  }

  ghost predicate GrantHas(facet: Facet, r: RelayState, owner: map<TokenId, ExecutorId>,
                           e: ExecutorId, minted: TokenId, until: int) {
    && e in r.rows && minted in r.tokens
    && match facet
       case Own => OwnedBy(owner, minted, e)
       case Standing =>
         if r.rows[e] == minted then r.tokens[minted] == Token(None, None) && PendingOf(r, e) == {}
         else r.tokens[minted] == Token(None, Some(until)) && PendingOf(r, e) == {minted}
  }

  lemma GrantMeans(s: System, e: ExecutorId, minted: TokenId, until: int)
    requires GrantHolds(s, e, minted, until)
    ensures GrantHas(Own, s.relay, s.owner, e, minted, until) && GrantHas(Standing, s.relay, s.owner, e, minted, until)
  {
  }

  /** Nothing ends the grant: the relay does not restart, no administrator acts on the executor, it does not
      ask again, the timer does not fire, and the relay's database works when it reconnects. */
  predicate LeavesGrant(ev: Event, e: ExecutorId, minted: TokenId) {
    match ev
    case RelayRestarts => false
    case Registers(x, _) => x != e
    case Revokes(x) => x != e
    case HandleRotate(x, _) => x != e
    case TtlFires(t, _) => t != minted
    case Connect(_, resolved, dbOk, _) => resolved != e || dbOk
    case _ => true
  }

  lemma NotReferenced(s: System, e: ExecutorId, minted: TokenId, until: int)
    requires Sound(s) && GrantHolds(s, e, minted, until)
    ensures e in s.relay.rows && (Referenced(s.relay, minted) <==> s.relay.rows[e] == minted)
  {
    GrantMeans(s, e, minted, until);
    ReferencedByOwner(s.relay, s.owner, s.revoked, minted);
  }

  lemma MintKeepsGrant(s: System, x: ExecutorId, t: TokenId, e: ExecutorId, minted: TokenId, until: int)
    requires Sound(s) && GrantHolds(s, e, minted, until) && Enabled(s, HandleRotate(x, t)) && x != e
    ensures GrantHolds(Next(s, HandleRotate(x, t)), e, minted, until)
  {
    GrantMeans(s, e, minted, until);
    var r := Next(s, HandleRotate(x, t)).relay;
    assert SocketSound(s, x);
    assert minted !in PendingOf(s.relay, x) && t != minted;
    assert r.tokens[minted] == s.relay.tokens[minted] && r.rows == s.relay.rows;
    assert PendingOf(r, e) == PendingOf(s.relay, e);
  }

  lemma ExpireKeepsGrant(s: System, t: TokenId, dbOk: bool, e: ExecutorId, minted: TokenId, until: int)
    requires Sound(s) && GrantHolds(s, e, minted, until) && Enabled(s, TtlFires(t, dbOk)) && t != minted
    ensures GrantHolds(Next(s, TtlFires(t, dbOk)), e, minted, until)
  {
    GrantMeans(s, e, minted, until);
    var r := Next(s, TtlFires(t, dbOk)).relay;
    assert t in s.relay.pending && t !in PendingOf(s.relay, e);
    forall u ensures u in PendingOf(r, e) <==> u in PendingOf(s.relay, e) {}
  }

  lemma PruneKeepsGrant(s: System, e: ExecutorId, minted: TokenId, until: int)
    requires Sound(s) && GrantHolds(s, e, minted, until) && s.now <= until
    ensures GrantHolds(Next(s, RelayPrunes), e, minted, until)
  {
    GrantMeans(s, e, minted, until);
    NotReferenced(s, e, minted, until);
    var r := Next(s, RelayPrunes).relay;
    assert r.tokens[minted] == s.relay.tokens[minted];
    assert PendingOf(r, e) == PendingOf(s.relay, e);
  }

  lemma RegisterKeepsGrant(s: System, x: ExecutorId, t: TokenId, e: ExecutorId, minted: TokenId, until: int)
    requires Sound(s) && GrantHolds(s, e, minted, until) && Enabled(s, Registers(x, t)) && x != e
    ensures GrantHolds(Next(s, Registers(x, t)), e, minted, until)
  {
    GrantMeans(s, e, minted, until);
    var r := Next(s, Registers(x, t)).relay;
    assert minted !in PendingOf(s.relay, x) && (x in s.relay.rows ==> s.relay.rows[x] != minted);
    assert r.tokens[minted] == s.relay.tokens[minted] && r.rows[e] == s.relay.rows[e];
    assert PendingOf(r, e) == PendingOf(s.relay, e);
  }

  lemma RevokeKeepsGrant(s: System, x: ExecutorId, e: ExecutorId, minted: TokenId, until: int)
    requires Sound(s) && GrantHolds(s, e, minted, until) && Enabled(s, Revokes(x)) && x != e
    ensures GrantHolds(Next(s, Revokes(x)), e, minted, until)
  {
    GrantMeans(s, e, minted, until);
    var r := Next(s, Revokes(x)).relay;
    assert minted !in PendingOf(s.relay, x) && s.relay.rows[x] != minted;
    assert r.tokens[minted] == s.relay.tokens[minted] && r.rows == s.relay.rows;
    assert PendingOf(r, e) == PendingOf(s.relay, e);
  }

  lemma QuietKeepsGrant(s: System, ev: Event, e: ExecutorId, minted: TokenId, until: int)
    requires GrantHolds(s, e, minted, until) && Enabled(s, ev)
    requires ev.Tick? || ev.AskRotation? || ev.DeliverReply? || ev.LoseRequest? || ev.LoseReply? || ev.RotationTimesOut?
          || ev.SocketDrops? || ev.Crash?
    ensures GrantHolds(Next(s, ev), e, minted, until)
  {
    GrantMeans(s, e, minted, until);
    assert Next(s, ev).relay == s.relay && Next(s, ev).owner == s.owner;
  }

  lemma ConnectKeepsGrant(s: System, x: ExecutorId, resolved: ExecutorId, dbOk: bool, cleared: bool,
                          e: ExecutorId, minted: TokenId, until: int)
    requires Sound(s) && GrantHolds(s, e, minted, until) && Enabled(s, Connect(x, resolved, dbOk, cleared))
    requires resolved != e || dbOk
    ensures GrantHolds(Next(s, Connect(x, resolved, dbOk, cleared)), e, minted, until)
  {
    var t := Presented(s.executors[x]);
    AdmitKeepsGrant(s, t, resolved, dbOk, e, minted, until);
    var admitted, after := s.(relay := Admit(s.relay, t, resolved, dbOk, s.now)), Next(s, Connect(x, resolved, dbOk, cleared));
    GrantMeans(admitted, e, minted, until);
    assert after.relay == admitted.relay && after.owner == admitted.owner;
  }

  /** A reconnect by the executor takes the grant up, or finds it taken up; anyone else's leaves it. */
  lemma AdmitKeepsGrant(s: System, t: TokenId, resolved: ExecutorId, dbOk: bool, e: ExecutorId, minted: TokenId, until: int)
    requires Sound(s) && GrantHolds(s, e, minted, until)
    requires Usable(s.relay, t, s.now) && BelongsTo(s.relay, t, resolved) && (resolved != e || dbOk)
    ensures var r := Admit(s.relay, t, resolved, dbOk, s.now);
            && GrantHolds(s.(relay := r), e, minted, until)
            && (t == minted ==> resolved == e && r.rows[e] == minted)
  {
    GrantMeans(s, e, minted, until);
    NotReferenced(s, e, minted, until);
    var r := Admit(s.relay, t, resolved, dbOk, s.now);
    assert t == minted ==> resolved == e;
    if Completes(s.relay, t) {
      assert s.relay.pending[t].executor == resolved && t in PendingOf(s.relay, resolved);
      assert resolved == e ==> t == minted && s.relay.rows[e] != minted;
      assert resolved != e ==> s.relay.pending[t].oldToken != minted;
    }
    forall u ensures u in PendingOf(r, e) <==> u in PendingOf(s.relay, e) && !(u == minted && t == minted && Completes(s.relay, t)) {}
  }

  lemma StepKeepsGrant(s: System, ev: Event, e: ExecutorId, minted: TokenId, until: int)
    requires Sound(s) && Enabled(s, ev) && GrantHolds(s, e, minted, until) && LeavesGrant(ev, e, minted) && s.now <= until
    ensures GrantHolds(Next(s, ev), e, minted, until)
  {
    match ev
    case HandleRotate(x, t) => MintKeepsGrant(s, x, t, e, minted, until);
    case TtlFires(t, dbOk) => ExpireKeepsGrant(s, t, dbOk, e, minted, until);
    case RelayPrunes => PruneKeepsGrant(s, e, minted, until);
    case Registers(x, t) => RegisterKeepsGrant(s, x, t, e, minted, until);
    case Revokes(x) => RevokeKeepsGrant(s, x, e, minted, until);
    case Connect(x, resolved, dbOk, cleared) => ConnectKeepsGrant(s, x, resolved, dbOk, cleared, e, minted, until);
    case _ => QuietKeepsGrant(s, ev, e, minted, until);
  }

  lemma ClockAdvances(s: System, ev: Event)
    requires Enabled(s, ev)
    ensures s.now <= Next(s, ev).now
  {
  }

  lemma {:induction false} RunAdvances(states: seq<System>, events: seq<Event>, i: nat, j: nat)
    requires IsRun(states, events) && i <= j < |states|
    ensures states[i].now <= states[j].now
    decreases j
  {
    if i < j {
      RunAdvances(states, events, i, j - 1);
      ClockAdvances(states[j - 1], events[j - 1]);
    }
  }

  lemma StepLeavesGrant(s: System, ev: Event, t: System, e: ExecutorId, minted: TokenId, until: int)
    requires LeadsOn(s, ev, t) && GrantHolds(s, e, minted, until) && LeavesGrant(ev, e, minted) && s.now <= until
    ensures GrantHolds(t, e, minted, until)
  {
    assert Leaves(Before, s, ev, t) && Leaves(After, s, ev, t);
    StepKeepsGrant(s, ev, e, minted, until);
  }

  lemma {:induction false} RunKeepsGrant(states: seq<System>, events: seq<Event>, e: ExecutorId, minted: TokenId, until: int)
    requires Leads(states, events) && GrantHolds(states[0], e, minted, until)
    requires forall k :: 0 <= k < |events| ==> LeavesGrant(events[k], e, minted)
    requires forall k :: 0 <= k < |states| ==> states[k].now <= until
    ensures GrantHolds(Last(states), e, minted, until)
    decreases |events|
  {
    if events != [] {
      StepLeavesGrant(states[0], events[0], states[1], e, minted, until);
      RunKeepsGrant(states[1..], events[1..], e, minted, until);
    }
  }

  lemma GrantSurvives(states: seq<System>, events: seq<Event>, i: nat, j: nat, e: ExecutorId, minted: TokenId, until: int)
    requires IsRun(states, events) && i <= j < |states| && GrantHolds(states[i], e, minted, until)
    requires forall k :: i <= k < j ==> LeavesGrant(events[k], e, minted)
    requires states[j].now <= until
    ensures GrantHolds(states[j], e, minted, until)
  {
    forall k | i <= k < j ensures LeadsOn(states[k], events[k], states[k + 1]) { RunLeads(states, events, k); }
    forall k | i <= k <= j ensures states[k].now <= until { RunAdvances(states, events, k, j); }
    SliceLeads(states, events, i, j);
    RunKeepsGrant(states[i..j + 1], events[i..j], e, minted, until);
  }

  lemma SliceLeads(states: seq<System>, events: seq<Event>, i: nat, j: nat)
    requires i <= j < |states| && |states| == |events| + 1
    requires forall k :: i <= k < j ==> LeadsOn(states[k], events[k], states[k + 1])
    ensures Leads(states[i..j + 1], events[i..j])
  {
    forall k | 0 <= k < j - i ensures LeadsOn(states[i..j + 1][k], events[i..j][k], states[i..j + 1][k + 1]) {
      assert LeadsOn(states[i + k], events[i + k], states[i + k + 1]);
    }
  }

  /** After a grant that nothing ended, the executor's reconnect with the token within five minutes is admitted
      as itself and makes the token its row's, for good. */
  lemma GrantIsHonoured(states: seq<System>, events: seq<Event>, i: nat, j: nat, e: ExecutorId, minted: TokenId, cleared: bool)
    requires IsRun(states, events) && i < j < |states| && events[i] == HandleRotate(e, minted)
    requires e in states[i].relay.lastRotateAt ==> states[i].now - states[i].relay.lastRotateAt[e] >= 60_000
    requires forall k :: i < k < j ==> LeavesGrant(events[k], e, minted)
    requires states[j].now <= states[i].now + 300_000
    requires e in states[j].executors && e !in states[j].sockets && Presented(states[j].executors[e]) == minted
    ensures Enabled(states[j], Connect(e, e, true, cleared))
    ensures var t := Next(states[j], Connect(e, e, true, cleared));
            && e in t.relay.rows && t.relay.rows[e] == minted && e in t.sockets && t.sockets[e].token == minted
            && forall later :: Usable(t.relay, minted, later)
  {
    RunSound(states, events, i);
    GrantLastsFiveMinutes(states[i], e, minted);
    GrantSurvives(states, events, i + 1, j, e, minted, states[i].now + 300_000);
    RunSound(states, events, j);
    TakesUp(states[j], e, minted, states[i].now + 300_000, cleared);
  }

  lemma TakesUp(s: System, e: ExecutorId, minted: TokenId, until: int, cleared: bool)
    requires Sound(s) && GrantHolds(s, e, minted, until) && s.now <= until
    requires e in s.executors && e !in s.sockets && Presented(s.executors[e]) == minted
    ensures Enabled(s, Connect(e, e, true, cleared))
    ensures var t := Next(s, Connect(e, e, true, cleared));
            && e in t.relay.rows && t.relay.rows[e] == minted && e in t.sockets && t.sockets[e].token == minted
            && forall later :: Usable(t.relay, minted, later)
  {
    GrantMeans(s, e, minted, until);
    NotReferenced(s, e, minted, until);
    assert s.relay.rows[e] != minted ==> minted in PendingOf(s.relay, e);
    AdmitKeepsGrant(s, minted, e, true, e, minted, until);
    GrantMeans(s.(relay := Admit(s.relay, minted, e, true, s.now)), e, minted, until);
  }

  // ---------------------------------------------------------------------------
  // A rotation that nothing disturbs
  // ---------------------------------------------------------------------------

  /** A rotation that is asked for is expected; */
  lemma AskIsSent(s: System, e: ExecutorId) returns (t: System)
    requires Sound(s) && e in s.executors && e in s.sockets && !s.executors[e].rotating && !s.executors[e].awaiting
    ensures Enabled(s, AskRotation(e)) && t == Next(s, AskRotation(e)) && Sound(t)
    ensures e in t.sockets && t.sockets[e] == s.sockets[e].(requests := s.sockets[e].requests + 1)
    ensures e in t.executors && t.executors[e] == s.executors[e].(rotating := true) && Expects(t.executors[e])
    ensures t.relay == s.relay && t.owner == s.owner && t.now == s.now
  {
    t := Next(s, AskRotation(e));
    NextSound(s, AskRotation(e));
  }

  /** the relay grants it, unless the executor asked within the last minute; */
  lemma AskIsGranted(s: System, e: ExecutorId, minted: TokenId) returns (t: System)
    requires Sound(s) && e in s.executors && e in s.sockets && s.sockets[e].requests == 1 && s.sockets[e].replies == []
    requires minted !in s.owner && (e in s.relay.lastRotateAt ==> s.now - s.relay.lastRotateAt[e] >= 60_000)
    ensures Enabled(s, HandleRotate(e, minted)) && t == Next(s, HandleRotate(e, minted)) && Sound(t)
    ensures e in t.sockets && t.sockets[e].replies == [Granted(minted)] && t.executors == s.executors && t.now == s.now
    ensures GrantHolds(t, e, minted, s.now + 300_000)
    ensures e in s.relay.rows && e in t.relay.rows && t.relay.rows[e] == s.relay.rows[e] != minted
  {
    t := Next(s, HandleRotate(e, minted));
    assert SocketSound(s, e);
    GrantLastsFiveMinutes(s, e, minted);
    NextSound(s, HandleRotate(e, minted));
    MintLeaves(s.relay, s.owner, s.revoked, e, s.sockets[e].token, minted, s.now);
    assert t.sockets[e].replies == [] + [Granted(minted)];
  }

  /** the granted token is stored beside the displaced one and presented next; */
  lemma GrantIsStored(s: System, e: ExecutorId, minted: TokenId) returns (t: System)
    requires Sound(s) && e in s.executors && e in s.sockets && Expects(s.executors[e])
    requires s.sockets[e].replies != [] && s.sockets[e].replies[0] == Granted(minted)
    ensures Enabled(s, DeliverReply(e, Stored)) && t == Next(s, DeliverReply(e, Stored)) && Sound(t)
    ensures e in t.executors && t.executors[e].disk == Disk(minted, Some(s.executors[e].disk.token))
    ensures Presented(t.executors[e]) == minted && t.executors[e].awaiting && e !in t.sockets
    ensures t.relay == s.relay && t.owner == s.owner && t.now == s.now
  {
    t := Next(s, DeliverReply(e, Stored));
    assert ExecutorSound(s, e);
    NextSound(s, DeliverReply(e, Stored));
  }

  /** and the reconnect leaves it the only credential on both sides. */
  lemma ReconnectConfirms(s: System, e: ExecutorId, minted: TokenId, until: int) returns (t: System)
    requires Sound(s) && GrantHolds(s, e, minted, until) && s.now <= until
    requires e in s.relay.rows && s.relay.rows[e] != minted
    requires e in s.executors && e !in s.sockets && Presented(s.executors[e]) == minted
    requires s.executors[e].awaiting && s.executors[e].disk.token == minted
    ensures Enabled(s, Connect(e, e, true, true)) && t == Next(s, Connect(e, e, true, true))
    ensures e in t.relay.rows && t.relay.rows[e] == minted && e in t.executors
    ensures t.executors[e].disk == Disk(minted, None) && !t.executors[e].rotating && !t.executors[e].awaiting
    ensures forall later :: Usable(t.relay, minted, later) && !Usable(t.relay, s.relay.rows[e], later)
  {
    TakesUp(s, e, minted, until, true);
    t := Next(s, Connect(e, e, true, true));
    GrantMeans(s, e, minted, until);
    NotReferenced(s, e, minted, until);
    assert minted in PendingOf(s.relay, e);
    assert s.relay.pending[minted].executor == e && s.relay.pending[minted].oldToken == s.relay.rows[e];
    assert t.relay.tokens[s.relay.rows[e]].revokedAt.Some?;
  }

  /** Asked, */
  lemma Asked(s: System, e: ExecutorId) returns (asked: System)
    requires Sound(s) && e in s.executors && e in s.sockets && !s.executors[e].rotating && !s.executors[e].awaiting
    ensures LeadsOn(s, AskRotation(e), asked) && asked.relay == s.relay && asked.owner == s.owner && asked.now == s.now
    ensures e in asked.sockets && asked.sockets[e] == s.sockets[e].(requests := s.sockets[e].requests + 1)
    ensures e in asked.executors && Expects(asked.executors[e])
  {
    asked := AskIsSent(s, e);
    Goes(s, AskRotation(e), asked);
  }

  /** granted, */
  lemma IsGranted(s: System, e: ExecutorId, minted: TokenId) returns (granted: System)
    requires LeadsOn(s, Tick(0), s) && e in s.executors && Expects(s.executors[e]) && minted !in s.owner
    requires e in s.sockets && s.sockets[e].requests == 1 && s.sockets[e].replies == []
    requires e in s.relay.lastRotateAt ==> s.now - s.relay.lastRotateAt[e] >= 60_000
    ensures LeadsOn(s, HandleRotate(e, minted), granted)
    ensures e in granted.sockets && granted.sockets[e].replies == [Granted(minted)] && granted.now == s.now
    ensures e in granted.executors && Expects(granted.executors[e]) && GrantHolds(granted, e, minted, s.now + 300_000)
    ensures e in s.relay.rows && e in granted.relay.rows && granted.relay.rows[e] == s.relay.rows[e] != minted
  {
    assert Leaves(Before, s, Tick(0), s);
    granted := AskIsGranted(s, e, minted);
    Goes(s, HandleRotate(e, minted), granted);
  }

  /** stored, with some time passing, */
  lemma StoredAndWaited(s: System, e: ExecutorId, minted: TokenId, ms: nat, until: int) returns (stored: System, later: System)
    requires LeadsOn(s, Tick(0), s) && e in s.executors && e in s.sockets && Expects(s.executors[e])
    requires s.sockets[e].replies == [Granted(minted)] && GrantHolds(s, e, minted, until) && s.now + ms <= until
    ensures LeadsOn(s, DeliverReply(e, Stored), stored) && LeadsOn(stored, Tick(ms), later)
    ensures later.relay == s.relay && later.now <= until && GrantHolds(later, e, minted, until)
    ensures e in later.executors && later.executors[e].disk.token == minted && later.executors[e].awaiting
    ensures e !in later.sockets && Presented(later.executors[e]) == minted
  {
    assert Leaves(Before, s, Tick(0), s);
    stored := GrantIsStored(s, e, minted);
    Goes(s, DeliverReply(e, Stored), stored);
    later := Next(stored, Tick(ms));
    NextSound(stored, Tick(ms));
    Goes(stored, Tick(ms), later);
    GrantMeans(s, e, minted, until);
    assert later.relay == s.relay && later.owner == s.owner;
  }

  lemma Stays(s: System, ev: Event, t: System)
    requires LeadsOn(s, ev, t)
    ensures LeadsOn(t, Tick(0), t)
  {
    assert Leaves(After, s, ev, t);
    assert Next(t, Tick(0)) == t;
  }

  /** and confirmed. */
  lemma Confirmed(s: System, e: ExecutorId, minted: TokenId, until: int) returns (done: System)
    requires LeadsOn(s, Tick(0), s) && GrantHolds(s, e, minted, until) && s.now <= until
    requires e in s.relay.rows && s.relay.rows[e] != minted
    requires e in s.executors && e !in s.sockets && Presented(s.executors[e]) == minted
    requires s.executors[e].awaiting && s.executors[e].disk.token == minted
    ensures LeadsOn(s, Connect(e, e, true, true), done)
    ensures e in done.relay.rows && done.relay.rows[e] == minted && e in done.executors
    ensures done.executors[e].disk == Disk(minted, None) && !done.executors[e].rotating && !done.executors[e].awaiting
    ensures forall t :: Usable(done.relay, minted, t) && !Usable(done.relay, s.relay.rows[e], t)
  {
    assert Leaves(Before, s, Tick(0), s);
    done := ReconnectConfirms(s, e, minted, until);
    NextSound(s, Connect(e, e, true, true));
    Goes(s, Connect(e, e, true, true), done);
  }

  lemma FiveSteps(states: seq<System>, events: seq<Event>)
    requires |states| == 6 && |events| == 5
    requires LeadsOn(states[0], events[0], states[1]) && LeadsOn(states[1], events[1], states[2])
    requires LeadsOn(states[2], events[2], states[3]) && LeadsOn(states[3], events[3], states[4])
    requires LeadsOn(states[4], events[4], states[5])
    ensures Leads(states, events)
  {
  }

  /** So from every reachable state, a rotation that nothing disturbs goes through, if the reconnect comes within
      five minutes of the grant: both sides end with the new token alone. */
  lemma RotationGoesThrough(s: System, e: ExecutorId, minted: TokenId, ms: nat) returns (states: seq<System>)
    requires Sound(s) && e in s.executors && e in s.sockets && s.sockets[e].requests == 0 && s.sockets[e].replies == []
    requires !s.executors[e].rotating && !s.executors[e].awaiting && minted !in s.owner
    requires (e in s.relay.lastRotateAt ==> s.now - s.relay.lastRotateAt[e] >= 60_000) && ms <= 300_000
    ensures Leads(states, [AskRotation(e), HandleRotate(e, minted), DeliverReply(e, Stored), Tick(ms), Connect(e, e, true, true)])
    ensures states[0] == s && e in s.relay.rows
    ensures var done := Last(states);
            && e in done.relay.rows && done.relay.rows[e] == minted
            && e in done.executors && done.executors[e].disk == Disk(minted, None)
            && !done.executors[e].rotating && !done.executors[e].awaiting
            && forall t :: Usable(done.relay, minted, t) && !Usable(done.relay, s.relay.rows[e], t)
  {
    var until := s.now + 300_000;
    var asked := Asked(s, e);
    Stays(s, AskRotation(e), asked);
    var granted := IsGranted(asked, e, minted);
    Stays(asked, HandleRotate(e, minted), granted);
    var stored, later := StoredAndWaited(granted, e, minted, ms, until);
    Stays(stored, Tick(ms), later);
    var done := Confirmed(later, e, minted, until);
    states := [s, asked, granted, stored, later, done];
    FiveSteps(states, [AskRotation(e), HandleRotate(e, minted), DeliverReply(e, Stored), Tick(ms), Connect(e, e, true, true)]);
  }
}
