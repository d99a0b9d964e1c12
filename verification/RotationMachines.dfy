/**
 The two machines of the token rotation as they hold their state: the relay's rows and in-memory
 maps, and the fields of the node's and the hub's connection.
 */
module RotationMachines {
  import opened Wrappers
  import opened RotationProtocol

  class Relay {
    var tokens: map<TokenId, Token>
    var rows: map<ExecutorId, TokenId>
    var pending: map<TokenId, PendingRotation>
    var timers: set<TokenId>
    var lastRotateAt: map<ExecutorId, int>

    function State(): RelayState
      reads this
    {
      RelayState(tokens, rows, pending, timers, lastRotateAt)
    }

    constructor (tokens: map<TokenId, Token>, rows: map<ExecutorId, TokenId>)
      ensures State() == Restart(RelayState(tokens, rows, map[], {}, map[]))
    {
      this.tokens, this.rows := tokens, rows;
      pending, timers, lastRotateAt := map[], {}, map[];
    }

    method CancelPendingRotation(e: ExecutorId, now: int)
      modifies this
      ensures State() == CancelPending(old(State()), e, now)
      ensures PendingOf(State(), e) == {}
      ensures forall t, at :: t in PendingOf(old(State()), e) ==> t !in timers && !Usable(State(), t, at)
    {
      var tokenIds: set<TokenId> := {};
      var todo := pending.Keys;
      while todo != {}
        invariant todo <= pending.Keys <= old(pending.Keys)
        invariant tokenIds == PendingOf(old(State()), e) - todo
        invariant pending == old(pending) - tokenIds && timers == old(timers) - tokenIds
        invariant tokens == old(tokens) && rows == old(rows) && lastRotateAt == old(lastRotateAt)
        decreases todo
      {
        var t :| t in todo;
        todo := todo - {t};
        if pending[t].executor == e {
          timers := timers - {t};
          pending := pending - {t};
          tokenIds := tokenIds + {t};
        }
      }
      tokens := RevokeAll(tokens, tokenIds, now);
    }

    /** Returns the minted token, or None when the executor asked again within the minute. */
    method HandleRotateToken(e: ExecutorId, connToken: TokenId, minted: TokenId, now: int)
      returns (reply: Option<TokenId>)
      modifies this
      ensures State() == Mint(old(State()), e, connToken, minted, now)
      ensures reply == if e in old(lastRotateAt) && now - old(lastRotateAt)[e] < 60_000 then None else Some(minted)
      // A granted token is usable for five minutes, by the executor it was granted to, and no other grant is left.
      ensures reply.Some? ==> forall t :: Usable(State(), minted, t) <==> t <= now + 300_000
      ensures reply.Some? && e in old(rows) && !Referenced(old(State()), minted) ==> BelongsTo(State(), minted, e)
      ensures reply.Some? ==> PendingOf(State(), e) == {minted} && minted in timers
      ensures reply.Some? ==> forall u, t :: u in PendingOf(old(State()), e) && u != minted ==> !Usable(State(), u, t)
      ensures rows == old(rows) && (reply.None? ==> State() == old(State()))
    {
      if e in lastRotateAt && now - lastRotateAt[e] < ROTATE_MIN_INTERVAL_MS {
        return None;
      }
      lastRotateAt := lastRotateAt[e := now];
      CancelPendingRotation(e, now);
      tokens := tokens[minted := Token(None, Some(now + ROTATION_TTL_MS))];
      timers := timers + {minted};
      pending := pending[minted := PendingRotation(e, connToken)];
      reply := Some(minted);
    }

    method TtlFired(t: TokenId, dbOk: bool, now: int)
      modifies this
      ensures State() == Expire(old(State()), t, dbOk, now)
      ensures t !in pending && t !in timers && (dbOk ==> forall at :: !Usable(State(), t, at))
    {
      timers := timers - {t};
      pending := pending - {t};
      if dbOk && t in tokens {
        tokens := tokens[t := tokens[t].(revokedAt := Some(now))];
      }
    }

    /** An upgrade with token `t`: the executor it is admitted as, or None when refused. */
    method HandleUpgrade(t: TokenId, dbOk: bool, now: int) returns (admitted: Option<ExecutorId>)
      modifies this
      ensures (exists e: ExecutorId :: Usable(old(State()), t, now) && BelongsTo(old(State()), t, e)) ==>
                exists e: ExecutorId :: BelongsTo(old(State()), t, e) && State() == Admit(old(State()), t, e, dbOk, now)
                  && admitted == if Completes(old(State()), t) && !dbOk then None else Some(e)
      ensures !(exists e: ExecutorId :: Usable(old(State()), t, now) && BelongsTo(old(State()), t, e)) ==>
                admitted == None && State() == old(State())
      // What is admitted is the row's token, from then on without an end, and alone.
      ensures admitted.Some? ==> admitted.value in rows && rows[admitted.value] == t
      ensures admitted.Some? && Completes(old(State()), t) ==>
                t !in pending && var was := old(pending)[t].oldToken;
                was != t ==> forall at :: Usable(State(), t, at) && !Usable(State(), was, at)
    {
      if !(t in tokens && tokens[t].revokedAt.None?) { return None; }
      if tokens[t].expiresAt.Some? && tokens[t].expiresAt.value < now { return None; }
      if e :| e in rows && rows[e] == t {
        assert BelongsTo(old(State()), t, e);
        return Some(e);
      }
      if t !in pending || pending[t].executor !in rows { return None; }
      var p := pending[t];
      assert BelongsTo(old(State()), t, p.executor);
      timers := timers - {t};
      pending := pending - {t};
      if !dbOk { return None; }
      rows := rows[p.executor := t];
      tokens := SetRevoked(tokens, p.oldToken, now);
      tokens := tokens[t := tokens[t].(expiresAt := None)];
      return Some(p.executor);
    }

    method RegisterExecutor(e: ExecutorId, minted: TokenId, now: int)
      modifies this
      ensures State() == Register(old(State()), e, minted, now)
      // The new token is the row's, and works without an end unless it was pending; the one before it does not.
      ensures e in rows && rows[e] == minted && PendingOf(State(), e) == {}
      ensures minted !in old(pending) ==> forall at :: Usable(State(), minted, at)
      ensures e in old(rows) && old(rows)[e] != minted ==> forall at :: !Usable(State(), old(rows)[e], at)
    {
      if e in rows {
        tokens := SetRevoked(tokens, rows[e], now);
      }
      tokens := tokens[minted := Token(None, None)];
      rows := rows[e := minted];
      CancelPendingRotation(e, now);
    }

    /** False when there is no live token to revoke. */
    method RevokeExecutorToken(e: ExecutorId, now: int) returns (revoked: bool)
      modifies this
      ensures e in old(rows) ==> State() == RevokeToken(old(State()), e, now)
      ensures e !in old(rows) ==> State() == old(State())
      ensures revoked <==> e in old(rows) && Live(old(State()), old(rows)[e])
      ensures e in old(rows) ==> rows == old(rows) && forall at :: !Usable(State(), rows[e], at)
      ensures revoked ==> PendingOf(State(), e) == {}
    {
      if e !in rows || rows[e] !in tokens || tokens[rows[e]].revokedAt.Some? { return false; }
      tokens := SetRevoked(tokens, rows[e], now);
      CancelPendingRotation(e, now);
      revoked := true;
    }
  }

  /** The daemon side of one executor: a node's config file and fields, or a hub's env file and fields. */
  class Daemon {
    const kind: Kind
    var disk: Disk
    var inMemory: TokenId
    var rotating: bool
    var awaiting: bool
    ghost var requests: nat   // rotations asked for with a request sent
    ghost var settled: nat    // those whose caller was told how they ended
    ghost var stored: nat     // tokens stored

    function State(): Executor
      reads this
    {
      Executor(kind, disk, inMemory, rotating, awaiting)
    }

    /** Requests whose caller has not been told the outcome. */
    ghost function Outstanding(): int
      reads this
    {
      requests - settled
    }

    /** At most one request is outstanding, and no request leads to more than one stored token. */
    ghost predicate Valid()
      reads this
    {
      && Outstanding() == (if rotating then 1 else 0)
      && (awaiting ==> rotating)
      && stored <= requests - (if rotating && !awaiting then 1 else 0)
    }

    constructor (kind: Kind, disk: Disk)
      ensures Valid() && State() == Executor(kind, disk, disk.token, false, false)
    {
      this.kind, this.disk, inMemory := kind, disk, disk.token;
      rotating, awaiting := false, false;
      requests, settled, stored := 0, 0, 0;
    }

    /** Whether a request goes out: a rotation already in progress is refused. */
    method RotateToken() returns (send: bool)
      requires Valid()
      modifies this
      ensures Valid() && Outstanding() == 1
      ensures send <==> old(Outstanding()) == 0
      ensures requests == old(requests) + (if send then 1 else 0) && settled == old(settled) && stored == old(stored)
      ensures State() == old(State()).(rotating := true)
    {
      if rotating { return false; }
      rotating := true;
      requests := requests + 1;
      return true;
    }

    /** The rotation timed out, was refused, or failed. */
    method FailRotation()
      requires Valid()
      modifies this
      ensures Valid() && Outstanding() == 0 && requests == old(requests) && stored == old(stored)
      ensures State() == if old(rotating) then StopRotation(old(State())) else old(State())
    {
      if !rotating { return; }
      rotating := false;
      awaiting := false;
      settled := settled + 1;
    }

    /** A `token_rotated` arrives; `writesThatWork` file writes succeed. True when the socket is closed
        to reconnect with the new token. */
    method OnTokenRotated(t: TokenId, writesThatWork: nat) returns (close: bool)
      requires Valid()
      modifies this
      ensures Valid() && requests == old(requests)
      ensures stored == old(stored) + (if close then 1 else 0)
      // The new token beside the one it displaces, in the file and in use; or the old one still in use.
      ensures close <==> old(rotating) && !old(awaiting) && writesThatWork >= (if kind.Node? then 1 else 2)
      ensures close ==> disk == Disk(t, Some(if kind.Node? then old(disk).token else old(inMemory)))
      ensures close ==> Presented(State()) == t && inMemory == t && awaiting && rotating
      ensures !close ==> disk.token == old(disk).token && inMemory == old(inMemory)
      ensures !Expects(old(State())) ==> State() == old(State()) && !close
      ensures Expects(old(State())) ==>
                var outcome := if writesThatWork < WritesNeeded(old(State())) then Failed(writesThatWork) else Stored;
                Possible(old(State()), outcome) && State() == Store(old(State()), t, outcome) && close == outcome.Stored?
    {
      if !rotating || awaiting { return false; }
      if kind.Node? {
        if writesThatWork < 1 { FailRotation(); return false; }
        disk := Disk(t, Some(disk.token));
      } else {
        if writesThatWork < 1 { FailRotation(); return false; }
        disk := disk.(previous := Some(inMemory));
        if writesThatWork < 2 { FailRotation(); return false; }
        disk := disk.(token := t);
      }
      inMemory := t;
      awaiting := true;
      stored := stored + 1;
      close := true;
    }

    method OnOpen(cleared: bool)
      requires Valid()
      modifies this
      ensures Valid() && requests == old(requests) && stored == old(stored)
      ensures old(awaiting) ==> Outstanding() == 0 && disk == Disk(old(disk).token, if cleared then None else old(disk).previous)
      ensures !old(awaiting) ==> disk == old(disk) && Outstanding() == old(Outstanding())
      ensures State() == Opened(old(State()), cleared)
    {
      if awaiting {
        awaiting := false;
        if cleared { disk := disk.(previous := None); }
        if rotating {
          rotating := false;
          settled := settled + 1;
        }
      }
    }
  }
}
