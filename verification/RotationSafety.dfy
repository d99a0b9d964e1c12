/**
 What every step of the token rotation keeps, and the safety of credentials over whole runs.
 */
module RotationSafety {
  import opened Wrappers
  import opened RotationProtocol

  // ---------------------------------------------------------------------------
  // The invariants
  // ---------------------------------------------------------------------------

  predicate OwnedBy(owner: map<TokenId, ExecutorId>, t: TokenId, e: ExecutorId) {
    t in owner && owner[t] == e
  }

  /** Row tokens: each executor's own, never expiring, revoked exactly when an administrator said so. */
  predicate RowsSound(r: RelayState, owner: map<TokenId, ExecutorId>, revoked: set<ExecutorId>) {
    forall e :: e in r.rows ==>
      && r.rows[e] in r.tokens && OwnedBy(owner, r.rows[e], e)
      && r.tokens[r.rows[e]].expiresAt.None?
      && (r.tokens[r.rows[e]].revokedAt.None? <==> e !in revoked)
  }

  /** Pending entries: one per executor at most, over the row's current token, and able to expire. */
  predicate PendingSound(r: RelayState, owner: map<TokenId, ExecutorId>, revoked: set<ExecutorId>) {
    && r.timers == r.pending.Keys
    && (forall t :: t in r.pending ==>
          var p := r.pending[t];
          && p.executor in r.rows && p.executor !in revoked
          && p.oldToken == r.rows[p.executor] && t != r.rows[p.executor]
          && OwnedBy(owner, t, p.executor)
          && (t in r.tokens ==> r.tokens[t].expiresAt.Some?))
    && (forall t, u :: t in r.pending && u in r.pending && r.pending[t].executor == r.pending[u].executor ==> t == u)
  }

  /** Every live token that never expires is the row token of its executor. */
  predicate NoStrayTokens(r: RelayState, owner: map<TokenId, ExecutorId>) {
    forall t :: t in r.tokens ==>
      && t in owner
      && (r.tokens[t].revokedAt.None? && r.tokens[t].expiresAt.None? ==>
            owner[t] in r.rows && r.rows[owner[t]] == t)
  }

  predicate RelaySound(r: RelayState, owner: map<TokenId, ExecutorId>, revoked: set<ExecutorId>) {
    RowsSound(r, owner, revoked) && PendingSound(r, owner, revoked) && NoStrayTokens(r, owner)
  }

  predicate OnDisk(d: Disk, t: TokenId) { d.token == t || d.previous == Some(t) }

  predicate ExecutorSound(s: System, e: ExecutorId)
    requires e in s.executors
  {
    var x := s.executors[e];
    && x.inMemory == x.disk.token
    && OwnedBy(s.owner, x.disk.token, e)
    && (x.disk.previous.Some? ==> OwnedBy(s.owner, x.disk.previous.value, e))
    && (e !in s.touched ==> e in s.relay.rows && OnDisk(x.disk, s.relay.rows[e]))
  }

  predicate SocketSound(s: System, e: ExecutorId)
    requires e in s.sockets
  {
    && e in s.executors && e in s.relay.rows && e !in s.revoked
    && s.sockets[e].token == s.relay.rows[e]
    && s.executors[e].disk.token == s.relay.rows[e]
    && (forall i :: 0 <= i < |s.sockets[e].replies| && s.sockets[e].replies[i].Granted? ==>
          OwnedBy(s.owner, s.sockets[e].replies[i].token, e))
  }

  predicate Sound(s: System) {
    && RelaySound(s.relay, s.owner, s.revoked)
    && s.revoked <= s.touched
    && (forall e :: e in s.executors ==> ExecutorSound(s, e))
    && (forall e :: e in s.sockets ==> SocketSound(s, e))
  }

  // ---------------------------------------------------------------------------
  // Relay steps
  // ---------------------------------------------------------------------------

  lemma ReferencedByOwner(r: RelayState, owner: map<TokenId, ExecutorId>, revoked: set<ExecutorId>, t: TokenId)
    requires RowsSound(r, owner, revoked)
    ensures Referenced(r, t) <==> t in owner && owner[t] in r.rows && r.rows[owner[t]] == t
  {
  }

  lemma CancelPendingSound(r: RelayState, e: ExecutorId, now: int,
                           owner: map<TokenId, ExecutorId>, revoked: set<ExecutorId>)
    requires RelaySound(r, owner, revoked)
    ensures RelaySound(CancelPending(r, e, now), owner, revoked)
    ensures PendingOf(CancelPending(r, e, now), e) == {}
    ensures CancelPending(r, e, now).rows == r.rows
  {
  }

  /** A new pending entry for an executor that has none left. */
  lemma AddPendingSound(c: RelayState, e: ExecutorId, minted: TokenId, expiry: int,
                        owner: map<TokenId, ExecutorId>, revoked: set<ExecutorId>)
    requires RelaySound(c, owner, revoked) && PendingOf(c, e) == {}
    requires e in c.rows && e !in revoked && minted !in owner
    ensures RelaySound(c.(tokens := c.tokens[minted := Token(None, Some(expiry))],
                          pending := c.pending[minted := PendingRotation(e, c.rows[e])],
                          timers := c.timers + {minted}),
                       owner[minted := e], revoked)
  {
    assert forall t :: t in c.pending ==> t in owner && (c.pending[t].executor == e ==> t in PendingOf(c, e));
  }

  lemma MintSound(r: RelayState, e: ExecutorId, minted: TokenId, now: int,
                  owner: map<TokenId, ExecutorId>, revoked: set<ExecutorId>)
    requires RelaySound(r, owner, revoked)
    requires e in r.rows && e !in revoked && minted !in owner
    ensures var owner' := if RateLimited(r, e, now) then owner else owner[minted := e];
            RelaySound(Mint(r, e, r.rows[e], minted, now), owner', revoked)
    ensures Mint(r, e, r.rows[e], minted, now).rows == r.rows
  {
    var r0 := r.(lastRotateAt := r.lastRotateAt[e := now]);
    CancelPendingSound(r0, e, now, owner, revoked);
    AddPendingSound(CancelPending(r0, e, now), e, minted, now + ROTATION_TTL_MS, owner, revoked);
  }

  /** Forgetting a pending entry together with its timer. */
  lemma DropPendingSound(r: RelayState, t: TokenId, owner: map<TokenId, ExecutorId>, revoked: set<ExecutorId>)
    requires RelaySound(r, owner, revoked)
    ensures RelaySound(r.(pending := r.pending - {t}, timers := r.timers - {t}), owner, revoked)
  {
  }

  /** Revoking a token that no row references. */
  lemma RevokeUnreferencedSound(r: RelayState, t: TokenId, now: int,
                                owner: map<TokenId, ExecutorId>, revoked: set<ExecutorId>)
    requires RelaySound(r, owner, revoked) && !Referenced(r, t)
    ensures RelaySound(r.(tokens := SetRevoked(r.tokens, t, now)), owner, revoked)
  {
    forall e | e in r.rows ensures r.rows[e] != t {}
  }

  lemma ExpireSound(r: RelayState, t: TokenId, dbOk: bool, now: int,
                    owner: map<TokenId, ExecutorId>, revoked: set<ExecutorId>)
    requires RelaySound(r, owner, revoked) && t in r.timers
    ensures RelaySound(Expire(r, t, dbOk, now), owner, revoked)
  {
    DropPendingSound(r, t, owner, revoked);
    if dbOk {
      var c := r.(pending := r.pending - {t}, timers := r.timers - {t});
      ReferencedByOwner(c, owner, revoked, t);
      RevokeUnreferencedSound(c, t, now, owner, revoked);
    }
  }

  /** Making `t` the lasting token of an executor that has no pending rotation left. */
  lemma PromoteSound(c: RelayState, e: ExecutorId, t: TokenId, now: int,
                     owner: map<TokenId, ExecutorId>, revoked: set<ExecutorId>)
    requires RelaySound(c, owner, revoked) && PendingOf(c, e) == {}
    requires e in c.rows && e !in revoked && t != c.rows[e] && OwnedBy(owner, t, e)
    requires Live(c, t)
    ensures var tokens := SetRevoked(c.tokens, c.rows[e], now);
            RelaySound(c.(rows := c.rows[e := t], tokens := tokens[t := tokens[t].(expiresAt := None)]), owner, revoked)
  {
    assert forall u :: u in c.pending && c.pending[u].executor == e ==> u in PendingOf(c, e);
  }

  lemma AdmitSound(r: RelayState, t: TokenId, e: ExecutorId, dbOk: bool, now: int,
                   owner: map<TokenId, ExecutorId>, revoked: set<ExecutorId>)
    requires RelaySound(r, owner, revoked)
    requires Usable(r, t, now) && BelongsTo(r, t, e)
    ensures RelaySound(Admit(r, t, e, dbOk, now), owner, revoked)
    ensures OwnedBy(owner, t, e) && e !in revoked
    ensures Completes(r, t) && !dbOk ==> Admit(r, t, e, dbOk, now).rows == r.rows
    ensures !(Completes(r, t) && !dbOk) ==> Admit(r, t, e, dbOk, now).rows == r.rows[e := t]
  {
    ReferencedByOwner(r, owner, revoked, t);
    DropPendingSound(r, t, owner, revoked);
    if Completes(r, t) && dbOk {
      var c := r.(pending := r.pending - {t}, timers := r.timers - {t});
      assert PendingOf(c, e) == {};
      PromoteSound(c, e, t, now, owner, revoked);
    }
  }

  /** Giving an executor, with no pending rotation, a fresh lasting token in place of the one it had. */
  lemma ReplaceRowSound(c: RelayState, e: ExecutorId, minted: TokenId, now: int,
                        owner: map<TokenId, ExecutorId>, revoked: set<ExecutorId>)
    requires RelaySound(c, owner, revoked) && PendingOf(c, e) == {} && minted !in owner
    ensures var tokens := if e in c.rows then SetRevoked(c.tokens, c.rows[e], now) else c.tokens;
            RelaySound(c.(tokens := tokens[minted := Token(None, None)], rows := c.rows[e := minted]),
                       owner[minted := e], revoked - {e})
  {
    assert forall u :: u in c.pending ==> c.pending[u].executor != e by {
      assert forall u :: u in c.pending && c.pending[u].executor == e ==> u in PendingOf(c, e);
    }
  }

  lemma RegisterSound(r: RelayState, e: ExecutorId, minted: TokenId, now: int,
                      owner: map<TokenId, ExecutorId>, revoked: set<ExecutorId>)
    requires RelaySound(r, owner, revoked) && minted !in owner
    ensures RelaySound(Register(r, e, minted, now), owner[minted := e], revoked - {e})
    ensures Register(r, e, minted, now).rows == r.rows[e := minted]
  {
    var c := CancelPending(r, e, now);
    CancelPendingSound(r, e, now, owner, revoked);
    ReplaceRowSound(c, e, minted, now, owner, revoked);
    RegisterOrder(r, e, minted, now);
    assert minted !in PendingOf(r, e) && (e in r.rows ==> r.rows[e] !in PendingOf(r, e));
  }

  /** Revoking and replacing the row token before cancelling gives the state of cancelling first. */
  lemma RegisterOrder(r: RelayState, e: ExecutorId, minted: TokenId, now: int)
    requires minted !in PendingOf(r, e) && (e in r.rows ==> r.rows[e] !in PendingOf(r, e))
    ensures var c := CancelPending(r, e, now);
            var tokens := if e in r.rows then SetRevoked(c.tokens, r.rows[e], now) else c.tokens;
            Register(r, e, minted, now) ==
              c.(tokens := tokens[minted := Token(None, None)], rows := r.rows[e := minted])
  {
    var c := CancelPending(r, e, now);
    var tokens := if e in r.rows then SetRevoked(c.tokens, r.rows[e], now) else c.tokens;
    var reg := Register(r, e, minted, now);
    assert reg.tokens == tokens[minted := Token(None, None)];
    assert PendingOf(r.(tokens := reg.tokens, rows := reg.rows), e) == PendingOf(r, e);
  }

  lemma RevokeTokenSound(r: RelayState, e: ExecutorId, now: int,
                         owner: map<TokenId, ExecutorId>, revoked: set<ExecutorId>)
    requires RelaySound(r, owner, revoked) && e in r.rows
    ensures RelaySound(RevokeToken(r, e, now), owner, revoked + {e})
    ensures RevokeToken(r, e, now).rows == r.rows
  {
  }

  /** Pruning deletes exactly the tokens in no row that were revoked more than an hour before, and ends none
      that could still be used. */
  lemma PruneDeletes(r: RelayState, now: int, t: TokenId)
    requires t in r.tokens
    ensures t !in Prune(r, now).tokens <==>
              !Referenced(r, t) && r.tokens[t].revokedAt.Some? && r.tokens[t].revokedAt.value < now - 3_600_000
    ensures forall at :: at >= now ==> (Usable(Prune(r, now), t, at) <==> Usable(r, t, at))
    ensures Prune(r, now) == r.(tokens := Prune(r, now).tokens)
  {
  }

  lemma PruneSound(r: RelayState, now: int, owner: map<TokenId, ExecutorId>, revoked: set<ExecutorId>)
    requires RelaySound(r, owner, revoked)
    ensures RelaySound(Prune(r, now), owner, revoked)
  {
    forall e | e in r.rows ensures Referenced(r, r.rows[e]) {}
  }

  // ---------------------------------------------------------------------------
  // System steps
  // ---------------------------------------------------------------------------

  /** Storing a granted token keeps the one the connection was using on disk, however it ends. */
  lemma StoreKeepsToken(x: Executor, t: TokenId, outcome: StoreOutcome)
    requires x.inMemory == x.disk.token && Possible(x, outcome)
    ensures var y := Store(x, t, outcome);
            && y.inMemory == y.disk.token && OnDisk(y.disk, x.disk.token)
            && y.disk.token in {x.disk.token, t}
            && (y.disk.previous == x.disk.previous || y.disk.previous == Some(x.disk.token))
            && (outcome.Failed? ==> y.disk.token == x.disk.token)
  {
  }

  lemma DeliverSound(s: System, e: ExecutorId, outcome: StoreOutcome)
    requires Sound(s) && Enabled(s, DeliverReply(e, outcome))
    ensures Sound(Deliver(s, e, outcome))
  {
    var x, k := s.executors[e], s.sockets[e];
    assert SocketSound(s, e) && ExecutorSound(s, e);
    if k.replies[0].Granted? && Expects(x) {
      StoreKeepsToken(x, k.replies[0].token, outcome);
    }
    var s' := Deliver(s, e, outcome);
    forall f | f in s'.sockets ensures SocketSound(s', f) {
      assert SocketSound(s, f);
    }
  }

  lemma AnswerSound(s: System, e: ExecutorId, minted: TokenId)
    requires Sound(s) && Enabled(s, HandleRotate(e, minted))
    ensures Sound(Answer(s, e, minted))
  {
    assert SocketSound(s, e);
    MintSound(s.relay, e, minted, s.now, s.owner, s.revoked);
    AnswerLocal(s, Answer(s, e, minted), e, minted);
  }

  /** A step that at most records `minted` as executor `e`'s and answers on its socket. */
  lemma AnswerLocal(s: System, s': System, e: ExecutorId, minted: TokenId)
    requires Sound(s) && e in s.sockets && minted !in s.owner
    requires RelaySound(s'.relay, s'.owner, s'.revoked) && s'.relay.rows == s.relay.rows
    requires s'.executors == s.executors && s'.revoked == s.revoked && s'.touched == s.touched
    requires exists n, reply ::
               && s'.sockets == s.sockets[e := Socket(s.sockets[e].token, n, s.sockets[e].replies + [reply])]
               && (reply.Granted? ==> OwnedBy(s'.owner, reply.token, e))
    requires s'.owner == s.owner || s'.owner == s.owner[minted := e]
    ensures Sound(s')
  {
    forall f | f in s'.executors ensures ExecutorSound(s', f) { assert ExecutorSound(s, f); }
    forall f | f in s'.sockets ensures SocketSound(s', f) { assert SocketSound(s, f); }
  }

  lemma OpenSound(s: System, e: ExecutorId, resolved: ExecutorId, dbOk: bool, cleared: bool)
    requires Sound(s) && Enabled(s, Connect(e, resolved, dbOk, cleared))
    ensures Sound(Open(s, e, resolved, dbOk, cleared))
    ensures resolved == e
  {
    var t := Presented(s.executors[e]);
    assert ExecutorSound(s, e);
    AdmitSound(s.relay, t, resolved, dbOk, s.now, s.owner, s.revoked);
    var admitted := s.(relay := Admit(s.relay, t, resolved, dbOk, s.now));
    if Completes(s.relay, t) && !dbOk {
      SameRowsSound(s, admitted);
    } else {
      ConnectedSound(s, Open(s, e, resolved, dbOk, cleared), e, t, cleared);
    }
  }

  /** The executor's new connection, once its token is the row's. */
  lemma ConnectedSound(s: System, s': System, e: ExecutorId, t: TokenId, cleared: bool)
    requires Sound(s) && e in s.executors && e !in s.sockets && e !in s.revoked
    requires RelaySound(s'.relay, s.owner, s.revoked) && s'.relay.rows == s.relay.rows[e := t]
    requires t == s.executors[e].disk.token
    requires s' == s.(relay := s'.relay, sockets := s.sockets[e := Socket(t, 0, [])],
                      executors := s.executors[e := Opened(s.executors[e], cleared)])
    ensures Sound(s')
  {
    forall f | f in s'.executors ensures ExecutorSound(s', f) { assert ExecutorSound(s, f); }
    forall f | f in s'.sockets ensures SocketSound(s', f) { assert f != e ==> SocketSound(s, f); }
  }

  lemma AdminSound(s: System, ev: Event)
    requires Sound(s) && Enabled(s, ev) && (ev.Registers? || ev.Revokes?)
    ensures Sound(Next(s, ev))
  {
    match ev {
      case Registers(e, minted) => RegisterSound(s.relay, e, minted, s.now, s.owner, s.revoked);
      case Revokes(e) => RevokeTokenSound(s.relay, e, s.now, s.owner, s.revoked);
    }
    var s' := Next(s, ev);
    forall f | f in s'.executors ensures ExecutorSound(s', f) {
      assert ExecutorSound(s, f);
    }
    forall f | f in s'.sockets ensures SocketSound(s', f) {
      assert SocketSound(s, f);
    }
  }

  lemma NextSound(s: System, ev: Event)
    requires Sound(s) && Enabled(s, ev)
    ensures Sound(Next(s, ev))
  {
    match ev {
      case HandleRotate(e, minted) => AnswerSound(s, e, minted);
      case DeliverReply(e, outcome) => DeliverSound(s, e, outcome);
      case Connect(e, resolved, dbOk, cleared) => OpenSound(s, e, resolved, dbOk, cleared);
      case TtlFires(t, dbOk) =>
        ExpireSound(s.relay, t, dbOk, s.now, s.owner, s.revoked);
        SameRowsSound(s, Next(s, ev));
      case RelayPrunes =>
        PruneSound(s.relay, s.now, s.owner, s.revoked);
        SameRowsSound(s, Next(s, ev));
      case Registers(_, _) => AdminSound(s, ev);
      case Revokes(_) => AdminSound(s, ev);
      case AskRotation(_) => ExecutorStepSound(s, ev);
      case RotationTimesOut(_) => ExecutorStepSound(s, ev);
      case Crash(_) => ExecutorStepSound(s, ev);
      case _ => QuietSound(s, ev);
    }
  }

  /** Steps that leave the relay's rows, the executors and the sockets alone. */
  lemma SameRowsSound(s: System, s': System)
    requires Sound(s) && RelaySound(s'.relay, s'.owner, s'.revoked)
    requires s' == s.(relay := s'.relay) && s'.relay.rows == s.relay.rows
    ensures Sound(s')
  {
    forall e | e in s'.executors ensures ExecutorSound(s', e) { assert ExecutorSound(s, e); }
    forall e | e in s'.sockets ensures SocketSound(s', e) { assert SocketSound(s, e); }
  }

  /** Steps of one executor that leave its disk alone. */
  lemma ExecutorStepSound(s: System, ev: Event)
    requires Sound(s) && Enabled(s, ev)
    requires ev.AskRotation? || ev.RotationTimesOut? || ev.Crash?
    ensures Sound(Next(s, ev))
  {
    var s' := Next(s, ev);
    assert ExecutorSound(s, ev.e);
    assert s'.executors.Keys == s.executors.Keys;
    forall e | e in s'.executors ensures ExecutorSound(s', e) { assert ExecutorSound(s, e); }
    forall e | e in s'.sockets ensures SocketSound(s', e) { assert SocketSound(s, e); }
  }

  /** Steps of a socket alone, the clock, and a relay restart. */
  lemma QuietSound(s: System, ev: Event)
    requires Sound(s) && Enabled(s, ev)
    requires ev.Tick? || ev.LoseRequest? || ev.LoseReply? || ev.SocketDrops? || ev.RelayRestarts?
    ensures Sound(Next(s, ev))
  {
    var s' := Next(s, ev);
    forall e | e in s'.executors ensures ExecutorSound(s', e) { assert ExecutorSound(s, e); }
    forall e | e in s'.sockets ensures SocketSound(s', e) { assert SocketSound(s, e); }
  }

  // ---------------------------------------------------------------------------
  // Whole runs
  // ---------------------------------------------------------------------------

  lemma {:induction false} RunSound(states: seq<System>, events: seq<Event>, i: nat)
    requires IsRun(states, events) && i < |states|
    ensures Sound(states[i])
  {
    if i > 0 {
      RunSound(states, events, i - 1);
      NextSound(states[i - 1], events[i - 1]);
    }
  }

  /** In every reachable state, an executor no administrator acted on holds on disk the token its row
      references, and that token is live and never expires: it always has a credential that works. */
  lemma CredentialNeverLost(states: seq<System>, events: seq<Event>, i: nat, e: ExecutorId)
    requires IsRun(states, events) && i < |states|
    requires e in states[i].executors && e !in states[i].touched
    ensures var s := states[i];
            && e in s.relay.rows
            && (s.relay.rows[e] == s.executors[e].disk.token ||
                s.executors[e].disk.previous == Some(s.relay.rows[e]))
            && (forall later :: later >= s.now ==> Usable(s.relay, s.relay.rows[e], later))
  {
    RunSound(states, events, i);
    assert ExecutorSound(states[i], e);
  }

  /** No executor is ever resolved to another one's row. */
  lemma ResolvesToItself(states: seq<System>, events: seq<Event>, i: nat, e: ExecutorId, resolved: ExecutorId)
    requires IsRun(states, events) && i < |states|
    requires e in states[i].executors
    requires Usable(states[i].relay, Presented(states[i].executors[e]), states[i].now)
    requires BelongsTo(states[i].relay, Presented(states[i].executors[e]), resolved)
    ensures resolved == e
  {
    RunSound(states, events, i);
    var s := states[i];
    assert ExecutorSound(s, e);
    AdmitSound(s.relay, Presented(s.executors[e]), resolved, true, s.now, s.owner, s.revoked);
  }

  function LastingTokens(r: RelayState, owner: map<TokenId, ExecutorId>, e: ExecutorId): set<TokenId> {
    set t | t in r.tokens && OwnedBy(owner, t, e) && r.tokens[t].revokedAt.None? && r.tokens[t].expiresAt.None?
  }

  /** In every reachable state: one lasting token per executor, none after a revocation; at most one
      pending rotation per executor, over its row's token; armed timers are the pending entries. */
  lemma RelayInvariants(states: seq<System>, events: seq<Event>, i: nat)
    requires IsRun(states, events) && i < |states|
    ensures var r := states[i].relay;
            && (forall e :: e in r.rows ==>
                  LastingTokens(r, states[i].owner, e) == (if e in states[i].revoked then {} else {r.rows[e]}))
            && (forall t :: t in r.pending ==>
                  r.pending[t].executor in r.rows && r.pending[t].oldToken == r.rows[r.pending[t].executor])
            && (forall e :: |PendingOf(r, e)| <= 1)
            && r.timers == r.pending.Keys
  {
    RunSound(states, events, i);
    var r := states[i].relay;
    forall e ensures |PendingOf(r, e)| <= 1 {
      if t :| t in PendingOf(r, e) {
        assert PendingOf(r, e) == {t};
      }
    }
  }

  /** Neither a TTL expiry nor a cancellation revokes a token that a row references. */
  lemma TimersSpareRowTokens(states: seq<System>, events: seq<Event>, i: nat, e: ExecutorId,
                             t: TokenId, cancelled: ExecutorId, dbOk: bool)
    requires IsRun(states, events) && i < |states|
    requires e in states[i].relay.rows && t in states[i].relay.timers
    ensures var r, now := states[i].relay, states[i].now;
            var row := r.rows[e];
            && row in Expire(r, t, dbOk, now).tokens && row in CancelPending(r, cancelled, now).tokens
            && Expire(r, t, dbOk, now).tokens[row] == r.tokens[row]
            && CancelPending(r, cancelled, now).tokens[row] == r.tokens[row]
  {
    RunSound(states, events, i);
  }

  /** A reconnect that confirms a rotation leaves the new token as the only credential on both sides:
      the row and the disk hold it, it never expires, and the displaced one no longer works. */
  lemma ConfirmedRotation(s: System, e: ExecutorId, resolved: ExecutorId)
    requires Sound(s) && Enabled(s, Connect(e, resolved, true, true))
    requires s.executors[e].awaiting && Completes(s.relay, Presented(s.executors[e]))
    ensures var s' := Next(s, Connect(e, resolved, true, true));
            var t := s.executors[e].disk.token;
            && e in s.relay.rows && s.relay.rows[e] != t
            && s'.relay.rows[e] == t && s'.executors[e].disk == Disk(t, None) && !s'.executors[e].rotating
            && s'.relay.tokens[t] == Token(None, None)
            && !Usable(s'.relay, s.relay.rows[e], s.now)
            && t !in s'.relay.pending && t !in s'.relay.timers
  {
    OpenSound(s, e, resolved, true, true);
    assert ExecutorSound(s, e);
  }

  /** What a minting leaves, whatever token its connection was opened with. */
  lemma MintLeaves(r: RelayState, owner: map<TokenId, ExecutorId>, revoked: set<ExecutorId>,
                   e: ExecutorId, connToken: TokenId, minted: TokenId, now: int)
    requires RelaySound(r, owner, revoked) && e in r.rows && e !in revoked
    requires minted !in owner && !RateLimited(r, e, now)
    ensures var m := Mint(r, e, connToken, minted, now);
            && m.rows == r.rows && !Referenced(m, minted)
            && minted in m.pending && m.pending[minted] == PendingRotation(e, connToken)
            && minted in m.tokens && m.tokens[minted].revokedAt.None?
            && r.rows[e] != minted && r.rows[e] in m.tokens && m.tokens[r.rows[e]] == Token(None, None)
            && LastingTokens(m, owner, e) == {r.rows[e]}
  {
    var m := Mint(r, e, connToken, minted, now);
    assert m.rows == r.rows;
    assert r.rows[e] !in PendingOf(r, e);
    assert m.tokens[r.rows[e]] == Token(None, None);
    forall t | t in LastingTokens(m, owner, e) ensures t == r.rows[e] {
      assert t in r.tokens && r.tokens[t].revokedAt.None? && r.tokens[t].expiresAt.None?;
    }
    assert r.rows[e] in LastingTokens(m, owner, e);
  }

  /** And what the promotion of the minted token leaves of that. */
  lemma PromotionLeaves(m: RelayState, owner: map<TokenId, ExecutorId>, e: ExecutorId, connToken: TokenId,
                        minted: TokenId, row: TokenId, later: int)
    requires minted !in owner && minted != row && !Referenced(m, minted)
    requires minted in m.pending && m.pending[minted] == PendingRotation(e, connToken)
    requires minted in m.tokens && m.tokens[minted].revokedAt.None? && LastingTokens(m, owner, e) == {row}
    ensures var promoted := Admit(m, minted, e, true, later);
            var lasting := LastingTokens(promoted, owner[minted := e], e);
            && promoted.rows == m.rows[e := minted]
            && (connToken == row ==> lasting == {minted})
            && (connToken != row ==> row in lasting)
  {
    var promoted := Admit(m, minted, e, true, later);
    var lasting := LastingTokens(promoted, owner[minted := e], e);
    assert row in LastingTokens(m, owner, e);
    forall t | t in lasting && t != minted ensures t == row && t != connToken {
      assert t in LastingTokens(m, owner, e);
    }
    if connToken == row { assert minted in lasting; }
  }

  /** Why a request must only be answered on a socket opened with the row's token: after the minting and
      the promotion, the new token is the executor's only lasting one exactly when it was. Answered on any
      other socket, the row's former token stays live for good. */
  lemma OneTokenExactlyOnCurrentSocket(r: RelayState, owner: map<TokenId, ExecutorId>, revoked: set<ExecutorId>,
                                       e: ExecutorId, connToken: TokenId, minted: TokenId, now: int, later: int)
    requires RelaySound(r, owner, revoked) && e in r.rows && e !in revoked
    requires minted !in owner && !RateLimited(r, e, now)
    ensures var promoted := Admit(Mint(r, e, connToken, minted, now), minted, e, true, later);
            var lasting := LastingTokens(promoted, owner[minted := e], e);
            && promoted.rows[e] == minted
            && (lasting == {minted} <==> connToken == r.rows[e])
            && (connToken != r.rows[e] ==> r.rows[e] in lasting)
  {
    MintLeaves(r, owner, revoked, e, connToken, minted, now);
    PromotionLeaves(Mint(r, e, connToken, minted, now), owner, e, connToken, minted, r.rows[e], later);
  }
}
