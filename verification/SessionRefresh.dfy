/**
 The refresh of a signed-in session under the lock file.
 */
module SessionRefresh {
  import opened Wrappers
  import opened FileLock

  type RefreshToken = nat

  /** Processes share one session file, and the server replaces the refresh token at every use. This is what
      a process inside the lock has done. `stamp` counts the sign-ins and sign-outs until it wrote. */
  datatype Work =
    | Start
    | Loaded(token: RefreshToken)
    | Answered(spent: RefreshToken, token: RefreshToken)
    | Refused(spent: RefreshToken)                            // invalid_grant
    | Persisted(token: RefreshToken, stamp: nat)
    | Done

  /** `file` is the session file's refresh token, `presented` what the server was shown, in order;
      `foreign` counts the changes to the file made outside the lock. */
  datatype World = World(
    lock: LockState, work: seq<Work>, file: Option<RefreshToken>,
    presented: seq<RefreshToken>, foreign: nat)

  /** What comes back for a refresh token shown to the server: nothing of use, a refusal that the token
      is spent or revoked, or a grant, with a new refresh token or without. */
  datatype Reply = Lost | Invalid | Granted(rotated: Option<RefreshToken>)

  datatype Act =
    | LockStep(ev: Event)
    | Load(p: Pid, usable: bool)
    | Present(p: Pid, reply: Reply)
    | Persist(p: Pid)
    | Delete(p: Pid)
    | Abandon(p: Pid)
    | SignIn(token: RefreshToken)
    | SignOut

  /** Leaving the lock's scope, on every path. */
  predicate Leaves(ev: Event) { ev.ReadBack? || ev.Crash? }

  predicate Inside(w: World, p: Pid) {
    p < |w.lock.procs| && p < |w.work| && w.lock.procs[p].Critical?
  }

  predicate CanAct(w: World, act: Act) {
    match act
    case LockStep(ev) =>
      && Enabled(w.lock, ev) && |w.work| == |w.lock.procs|
      // The refresh returns once it has written the answer, or has nothing to do.
      && (ev.ReadBack? ==> w.work[ev.p].Persisted? || w.work[ev.p].Done?)
    case Load(p, _) => Inside(w, p) && w.work[p].Start?
    case Present(p, _) => Inside(w, p) && w.work[p].Loaded?
    case Persist(p) => Inside(w, p) && w.work[p].Answered?
    case Delete(p) => Inside(w, p) && w.work[p].Refused?
    case Abandon(p) => Inside(w, p) && w.work[p].Loaded?
    case SignIn(_) => true
    case SignOut => true
  }

  function Do(w: World, act: Act): World
    requires CanAct(w, act)
  {
    match act
    case LockStep(ev) =>
      w.(lock := FileLock.Next(w.lock, ev), work := if Leaves(ev) then w.work[ev.p := Start] else w.work)
    case Load(p, usable) =>
      if usable || w.file.None? then w.(work := w.work[p := Done]) else w.(work := w.work[p := Loaded(w.file.value)])
    case Present(p, reply) =>
      var token := w.work[p].token;
      var left :=
        match reply
        case Lost => Done
        case Invalid => Refused(token)
        case Granted(rotated) => Answered(token, if rotated.Some? then rotated.value else token);
      w.(presented := w.presented + [token], work := w.work[p := left])
    case Persist(p) =>
      w.(file := Some(w.work[p].token), work := w.work[p := Persisted(w.work[p].token, w.foreign)])
    case Delete(p) => w.(file := None, work := w.work[p := Done])
    case Abandon(p) => w.(work := w.work[p := Done])
    case SignIn(token) => w.(file := Some(token), foreign := w.foreign + 1)
    case SignOut => w.(file := None, foreign := w.foreign + 1)
  }

  ghost predicate Begins(w: World) {
    FileLock.Initial(w.lock) && |w.work| == |w.lock.procs| && w.presented == []
    && forall p :: 0 <= p < |w.work| ==> w.work[p] == Start
  }

  ghost predicate IsHistory(worlds: seq<World>, acts: seq<Act>) {
    && |worlds| == |acts| + 1 && Begins(worlds[0])
    && forall i :: 0 <= i < |acts| ==> CanAct(worlds[i], acts[i]) && worlds[i + 1] == Do(worlds[i], acts[i])
  }

  // ---------------------------------------------------------------------------
  // What the refresh relies on
  // ---------------------------------------------------------------------------

  /** A token the server makes is one no one has seen: not shown to it, stored, or on its way. */
  ghost predicate Unseen(w: World, token: RefreshToken) {
    && token !in w.presented && w.file != Some(token)
    && forall p :: 0 <= p < |w.work| ==>
         match w.work[p] {
           case Loaded(t) => t != token
           case Answered(t, u) => t != token && u != token
           case _ => true
         }
  }

  /** The process showed a token and has not yet done with the file what the answer says. */
  predicate Owes(work: Work) { work.Answered? || work.Refused? }

  /** A grant rotates, the answer arrives, and the process lives to write it down. */
  ghost predicate Rotates(w: World, act: Act) {
    match act
    case Present(_, Lost) => false
    case Present(_, Invalid) => true
    case Present(_, Granted(rotated)) => rotated.Some? && Unseen(w, rotated.value)
    case SignIn(token) => Unseen(w, token)
    case LockStep(ev) =>
      ev.Crash? && ev.p < |w.lock.procs| && ev.p < |w.work| ==> !MidSteal(w.lock.procs[ev.p]) && !Owes(w.work[ev.p])
    case _ => true
  }

  ghost predicate Trusted(worlds: seq<World>, acts: seq<Act>) {
    && IsHistory(worlds, acts)
    && (forall i :: 0 <= i < |worlds| ==> HoldersFresh(worlds[i].lock))
    && (forall i :: 0 <= i < |acts| ==> Rotates(worlds[i], acts[i]))
  }

  // ---------------------------------------------------------------------------
  // The invariant
  // ---------------------------------------------------------------------------

  ghost predicate Distinct(s: seq<RefreshToken>) { forall i, j :: 0 <= i < j < |s| ==> s[i] != s[j] }

  /** A process that owes the file its answer showed the token `token`. */
  ghost predicate OwedFor(w: World, token: RefreshToken) {
    exists p :: 0 <= p < |w.work| && Owes(w.work[p]) && w.work[p].spent == token
  }

  /** A token about to be used has not been used, and the file's is unused but while a process owes it an
      answer. */
  ghost predicate Unspent(w: World) {
    && Exclusive(w.lock) && |w.work| == 2 && Distinct(w.presented)
    && (forall p :: 0 <= p < 2 ==> (w.work[p] == Start || w.lock.procs[p].Critical?))
    && (forall p :: 0 <= p < 2 && w.work[p].Loaded? ==> w.work[p].token !in w.presented)
    && (forall p :: 0 <= p < 2 && w.work[p].Answered? ==> w.work[p].token !in w.presented)
    && (w.file.Some? && w.file.value in w.presented ==> OwedFor(w, w.file.value))
    && (forall p :: 0 <= p < 2 && w.work[p].Persisted? && w.work[p].stamp == w.foreign ==> w.file == Some(w.work[p].token))
    && (forall p :: 0 <= p < 2 && w.work[p].Persisted? ==> w.work[p].stamp <= w.foreign)
  }

  /** A step of the lock moves no process out of its scope but by leaving it. */
  lemma ScopeKept(s: LockState, ev: Event, p: Pid)
    requires Enabled(s, ev) && p < |s.procs| && s.procs[p].Critical?
    ensures |FileLock.Next(s, ev).procs| == |s.procs|
    ensures (!ev.Tick? && ev.p == p && Leaves(ev)) || FileLock.Next(s, ev).procs[p] == s.procs[p]
  {
  }

  lemma LockStepKeepsUnspent(w: World, act: Act)
    requires Unspent(w) && act.LockStep? && CanAct(w, act) && HoldersFresh(w.lock) && Rotates(w, act)
    ensures Unspent(Do(w, act))
  {
    NextExclusive(w.lock, act.ev);
    var v := Do(w, act);
    forall p | 0 <= p < 2 ensures v.work[p] == Start || (v.work[p] == w.work[p] && v.lock.procs[p].Critical?) {
      if w.lock.procs[p].Critical? { ScopeKept(w.lock, act.ev, p); }
    }
    if v.file.Some? && v.file.value in v.presented {
      var p :| 0 <= p < |w.work| && Owes(w.work[p]) && w.work[p].spent == w.file.value;
      assert v.work[p] == w.work[p];
    }
  }

  lemma PresentKeepsUnspent(w: World, act: Act)
    requires Unspent(w) && act.Present? && CanAct(w, act) && Rotates(w, act)
    ensures Unspent(Do(w, act))
  {
    var v := Do(w, act);
    assert Owes(v.work[act.p]) && v.work[act.p].spent == w.work[act.p].token;
    assert HolderOwns(w.lock, 0, 1) && HolderOwns(w.lock, 1, 0);
    assert w.work[1 - act.p] == Start;
  }

  lemma FileWrittenKeepsUnspent(w: World, act: Act)
    requires Unspent(w) && (act.Persist? || act.Delete?) && CanAct(w, act)
    ensures Unspent(Do(w, act))
  {
    assert HolderOwns(w.lock, 0, 1) && HolderOwns(w.lock, 1, 0);
    assert w.work[1 - act.p] == Start;
  }

  lemma FileReadKeepsUnspent(w: World, act: Act)
    requires Unspent(w) && (act.Load? || act.Abandon?) && CanAct(w, act)
    ensures Unspent(Do(w, act))
  {
    assert HolderOwns(w.lock, 0, 1) && HolderOwns(w.lock, 1, 0);
    assert w.work[1 - act.p] == Start;
  }

  lemma SignKeepsUnspent(w: World, act: Act)
    requires Unspent(w) && (act.SignIn? || act.SignOut?) && CanAct(w, act) && Rotates(w, act)
    ensures Unspent(Do(w, act))
  {
  }

  lemma DoKeepsUnspent(w: World, act: Act)
    requires Unspent(w) && CanAct(w, act) && HoldersFresh(w.lock) && Rotates(w, act)
    ensures Unspent(Do(w, act))
  {
    match act
    case LockStep(_) => LockStepKeepsUnspent(w, act);
    case Present(_, _) => PresentKeepsUnspent(w, act);
    case Load(_, _) => FileReadKeepsUnspent(w, act);
    case Persist(_) => FileWrittenKeepsUnspent(w, act);
    case Delete(_) => FileWrittenKeepsUnspent(w, act);
    case Abandon(_) => FileReadKeepsUnspent(w, act);
    case SignIn(_) => SignKeepsUnspent(w, act);
    case SignOut => SignKeepsUnspent(w, act);
  }

  lemma {:induction false} HistoryUnspent(worlds: seq<World>, acts: seq<Act>, i: nat)
    requires Trusted(worlds, acts) && i < |worlds| && |worlds[0].work| == 2
    ensures Unspent(worlds[i])
    decreases i
  {
    if i > 0 {
      HistoryUnspent(worlds, acts, i - 1);
      DoKeepsUnspent(worlds[i - 1], acts[i - 1]);
    }
  }

  // ---------------------------------------------------------------------------
  // Main results
  // ---------------------------------------------------------------------------

  /** Two processes never show the server a refresh token twice. */
  lemma PresentedAtMostOnce(worlds: seq<World>, acts: seq<Act>, i: nat)
    requires Trusted(worlds, acts) && i < |worlds| && |worlds[0].work| == 2
    ensures forall a, b :: 0 <= a < b < |worlds[i].presented| ==> worlds[i].presented[a] != worlds[i].presented[b]
  {
    HistoryUnspent(worlds, acts, i);
  }

  /** A spent token is never left in the file: while it is there, a process in the lock still owes the
      file the answer to it, a new token or its deletion. */
  lemma SpentTokenNeverLeft(worlds: seq<World>, acts: seq<Act>, i: nat)
    requires Trusted(worlds, acts) && i < |worlds| && |worlds[0].work| == 2
    requires worlds[i].file.Some? && worlds[i].file.value in worlds[i].presented
    ensures var w := worlds[i];
            exists p :: 0 <= p < |w.work| && p < |w.lock.procs| && w.lock.procs[p].Critical?
                        && Owes(w.work[p]) && w.work[p].spent == w.file.value
  {
    HistoryUnspent(worlds, acts, i);
    var w := worlds[i];
    assert OwedFor(w, w.file.value);
  }

  /** When a refresh returns what the server gave it, that token is unused and on disk, unless someone
      signed in or out since it was written. */
  lemma OnDiskBeforeReturn(worlds: seq<World>, acts: seq<Act>, i: nat, p: Pid)
    requires Trusted(worlds, acts) && i < |acts| && |worlds[0].work| == 2
    requires acts[i] == LockStep(ReadBack(p)) && worlds[i].work[p].Persisted?
    ensures var w := worlds[i];
            w.work[p].stamp == w.foreign ==> w.file == Some(w.work[p].token) && w.work[p].token !in w.presented
  {
    HistoryUnspent(worlds, acts, i);
    var w := worlds[i];
    assert HolderOwns(w.lock, 0, 1) && HolderOwns(w.lock, 1, 0);
    assert w.work[1 - p] == Start;
  }

  /** Both need the answer to arrive: one that is lost leaves the spent token in the file, and whoever
      next finds the session stale shows it again. */
  lemma LostAnswerReplays(w: World, p: Pid, next: World, q: Pid, again: Reply)
    requires CanAct(w, Present(p, Lost)) && w.file == Some(w.work[p].token)
    requires var lost := Do(w, Present(p, Lost));
             next.file == lost.file && next.presented == lost.presented
    requires CanAct(next, Load(q, false))
    ensures var loaded := Do(next, Load(q, false));
            CanAct(loaded, Present(q, again)) && !Distinct(Do(loaded, Present(q, again)).presented)
  {
    var token := w.work[p].token;
    var last := Do(Do(next, Load(q, false)), Present(q, again)).presented;
    assert last[|last| - 2] == token && last[|last| - 1] == token;
  }

  // ---------------------------------------------------------------------------
  // One refresh
  // ---------------------------------------------------------------------------

  const EXPIRY_SKEW_MS := 30_000

  datatype Session = Session(
    issuer: Option<string>, access: string, accessExpiresAt: int,
    refresh: Option<RefreshToken>, refreshExpiresAt: Option<int>)

  datatype Answer =
    | Issued(access: string, expiresIn: int, rotated: Option<RefreshToken>)
    | InvalidGrant
    | Unavailable

  datatype Failure = NotSignedIn | SessionExpired | RefreshFailed

  predicate IsFresh(s: Session, now: int) { s.accessExpiresAt - EXPIRY_SKEW_MS > now }

  predicate Refreshable(s: Session, now: int) {
    s.refresh.Some? && s.issuer.Some? && (s.refreshExpiresAt.Some? ==> s.refreshExpiresAt.value > now)
  }

  class SessionStore {
    var file: Option<Session>
    ghost var presented: seq<RefreshToken>

    constructor (file: Option<Session>)
      ensures this.file == file && presented == []
    {
      this.file, presented := file, [];
    }

    /** Runs inside the lock. `endpoint` is whether the session's own server was found; `answeredAt` is
        when the answer is in. A session it returns is the one in the file. */
    method RefreshSession(now: int, endpoint: bool, answer: Answer, answeredAt: int) returns (r: Result<Session, Failure>)
      modifies this
      ensures r.Ok? <==> old(file).Some? && (IsFresh(old(file).value, now)
                                             || (Refreshable(old(file).value, now) && endpoint && answer.Issued?))
      ensures r.Ok? ==> file == Some(r.value)
      ensures old(file).Some? && IsFresh(old(file).value, now) ==> r == Ok(old(file).value)
      ensures r.Ok? && !IsFresh(old(file).value, now) ==>
                var s := old(file).value;
                && Refreshable(s, now) && answer.Issued?
                && presented == old(presented) + [s.refresh.value]
                && r.value.refresh == (if answer.rotated.Some? then answer.rotated else s.refresh)
                && r.value.issuer == s.issuer && r.value.refreshExpiresAt == s.refreshExpiresAt
                && r.value.access == answer.access && r.value.accessExpiresAt == answeredAt + answer.expiresIn * 1000
                && (IsFresh(r.value, answeredAt) <==> answer.expiresIn * 1000 > 30_000)
      // A token is shown exactly for a stale session with an unexpired token, a recorded server that was found.
      ensures presented != old(presented) <==>
                && endpoint && old(file).Some? && old(file).value.accessExpiresAt - 30_000 <= now
                && old(file).value.issuer.Some? && old(file).value.refresh.Some?
                && !(old(file).value.refreshExpiresAt.Some? && old(file).value.refreshExpiresAt.value <= now)
      ensures r.Err? ==> file == if presented != old(presented) && answer.InvalidGrant? then None else old(file)
      ensures r.Err? && answer.Issued? ==> presented == old(presented)
      ensures r == Err(NotSignedIn) <==> old(file).None?
      ensures r == Err(SessionExpired) <==>
                && old(file).Some? && !IsFresh(old(file).value, now)
                && (!Refreshable(old(file).value, now) || (endpoint && answer.InvalidGrant?))
      ensures presented == old(presented)
           || (old(file).Some? && old(file).value.refresh.Some? && presented == old(presented) + [old(file).value.refresh.value])
    {
      if file.None? { return Err(NotSignedIn); }
      var session := file.value;
      if IsFresh(session, now) { return Ok(session); }
      if session.refresh.None? || (session.refreshExpiresAt.Some? && session.refreshExpiresAt.value <= now) {
        return Err(SessionExpired);
      }
      if session.issuer.None? { return Err(SessionExpired); }
      if !endpoint { return Err(RefreshFailed); }
      presented := presented + [session.refresh.value];
      match answer
      case InvalidGrant =>
        file := None;
        return Err(SessionExpired);
      case Unavailable =>
        return Err(RefreshFailed);
      case Issued(access, expiresIn, rotated) =>
        var refreshed := Session(session.issuer, access, answeredAt + expiresIn * 1000,
                                 if rotated.Some? then rotated else session.refresh, session.refreshExpiresAt);
        file := Some(refreshed);
        return Ok(refreshed);
    }
  }
}
