/**
 The lock file and the steps processes take on it.
 */
module FileLock {
  import opened Wrappers

  // Times are in microseconds; the file names and limits of the protocol are in milliseconds.
  const PER_MS := 1_000
  const STALE_LOCK_MS := 150_000
  const LOCK_WAIT_MS := STALE_LOCK_MS + 30_000
  const RETRY_MS := 100

  type Inode = nat
  type Nonce = nat
  type Pid = nat

  /** What a look at the lock saw. */
  datatype Sight = Sight(ino: Inode, mtime: nat)

  /** The name a lock is moved to, made from what was seen of it. */
  datatype Name = Name(ino: Inode, ms: nat)

  function MovedName(seen: Sight): Name { Name(seen.ino, seen.mtime / PER_MS) }

  datatype File = File(mtime: nat, nonce: Option<Nonce>)

  datatype StealResult = Stole | Kept | Threw

  /** Where a process is: at the exclusive create, the check for staleness, the atomic move of a stale lock,
      the second look, the link back, in the critical section, or at the release. */
  datatype Step =
    | Outside
    | Trying(nonce: Nonce)
    | Looking(nonce: Nonce)                                   // the create found a lock
    | SawStale(nonce: Nonce, seen: Sight)
    | Moved(nonce: Nonce, seen: Sight)
    | Mismatch(nonce: Nonce, seen: Sight)                     // the moved lock is not the one seen
    | Unlinking(nonce: Nonce, seen: Sight, result: StealResult)
    | Created(nonce: Nonce, own: Inode)                       // the nonce is not written yet
    | Critical(nonce: Nonce, own: Inode)
    | Releasing(nonce: Nonce, own: Inode)                     // the lock was read and held the nonce

  datatype Disk = Disk(lock: Option<Inode>, moved: map<Name, Inode>, files: map<Inode, File>)

  datatype LockState = LockState(disk: Disk, procs: seq<Step>, now: nat, staleMs: nat)

  predicate Linked(d: Disk, i: Inode) { d.lock == Some(i) || i in d.moved.Values }

  predicate Holds(step: Step) { step.Created? || step.Critical? || step.Releasing? }

  predicate MidSteal(step: Step) { step.Moved? || step.Mismatch? }

  predicate Stale(now: nat, mtime: nat, staleMs: nat) { now - mtime > staleMs * PER_MS }

  // ---------------------------------------------------------------------------
  // The file system
  // ---------------------------------------------------------------------------

  /** Moves the lock over whatever bears the name; two links to one file are left as they are. */
  function RenameLock(d: Disk, n: Name): Option<Disk> {
    if d.lock.None? then None
    else if n in d.moved && d.moved[n] == d.lock.value then Some(d)
    else Some(d.(lock := None, moved := d.moved[n := d.lock.value]))
  }

  function LinkBack(d: Disk, n: Name): Disk {
    if n in d.moved && d.lock.None? then d.(lock := Some(d.moved[n])) else d
  }

  function UnlinkMoved(d: Disk, n: Name): Disk { d.(moved := d.moved - {n}) }

  function Look(d: Disk, i: Inode): Sight { Sight(i, if i in d.files then d.files[i].mtime else 0) }

  // ---------------------------------------------------------------------------
  // Events
  // ---------------------------------------------------------------------------

  datatype Event =
    | Enter(p: Pid, nonce: Nonce)
    | TryCreate(p: Pid, ino: Inode)
    | StatLock(p: Pid)
    | Rename(p: Pid)
    | StatMoved(p: Pid)
    | Link(p: Pid)
    | Unlink(p: Pid)
    | WriteNonce(p: Pid)
    | ReadBack(p: Pid)
    | Release(p: Pid)
    | GiveUp(p: Pid)
    | Crash(p: Pid)
    | Tick(d: nat)

  predicate Enabled(s: LockState, ev: Event) {
    if ev.Tick? then true
    else if ev.p >= |s.procs| then false
    else
      var step := s.procs[ev.p];
      match ev
      case Enter(_, _) => step.Outside?
      case TryCreate(_, ino) =>
        step.Trying? && !Linked(s.disk, ino)
        && (forall q :: 0 <= q < |s.procs| && Holds(s.procs[q]) ==> s.procs[q].own != ino)
      case StatLock(_) => step.Looking?
      case Rename(_) => step.SawStale?
      case StatMoved(_) => step.Moved?
      case Link(_) => step.Mismatch?
      case Unlink(_) => step.Unlinking?
      case WriteNonce(_) => step.Created?
      case ReadBack(_) => step.Critical?
      case Release(_) => step.Releasing?
      case GiveUp(_) => step.Trying?
      case Crash(_) => !step.Outside?
  }

  function At(s: LockState, p: Pid, step: Step): LockState
    requires p < |s.procs|
  {
    s.(procs := s.procs[p := step])
  }

  function Next(s: LockState, ev: Event): LockState
    requires Enabled(s, ev)
  {
    if ev.Tick? then s.(now := s.now + ev.d)
    else
      var p, step, d := ev.p, s.procs[ev.p], s.disk;
      match ev
      case Enter(_, nonce) => At(s, p, Trying(nonce))
      case TryCreate(_, ino) =>
        if d.lock.Some? then At(s, p, Looking(step.nonce))
        else
          At(s.(disk := d.(lock := Some(ino), files := d.files[ino := File(s.now, None)])), p, Created(step.nonce, ino))
      case StatLock(_) =>
        if d.lock.None? || !Stale(s.now, Look(d, d.lock.value).mtime, s.staleMs) then At(s, p, Trying(step.nonce))
        else At(s, p, SawStale(step.nonce, Look(d, d.lock.value)))
      case Rename(_) =>
        var renamed := RenameLock(d, MovedName(step.seen));
        if renamed.None? then At(s, p, Trying(step.nonce))
        else At(s.(disk := renamed.value), p, Moved(step.nonce, step.seen))
      case StatMoved(_) =>
        var n := MovedName(step.seen);
        if n !in d.moved then At(s, p, Unlinking(step.nonce, step.seen, Threw))
        else if Look(d, d.moved[n]) != step.seen then At(s, p, Mismatch(step.nonce, step.seen))
        else At(s, p, Unlinking(step.nonce, step.seen, Stole))
      case Link(_) =>
        At(s.(disk := LinkBack(d, MovedName(step.seen))), p, Unlinking(step.nonce, step.seen, Kept))
      case Unlink(_) =>
        At(s.(disk := UnlinkMoved(d, MovedName(step.seen))), p, if step.result.Threw? then Outside else Trying(step.nonce))
      case WriteNonce(_) =>
        At(s.(disk := d.(files := d.files[step.own := File(s.now, Some(step.nonce))])), p, Critical(step.nonce, step.own))
      case ReadBack(_) =>
        if d.lock.Some? && d.lock.value in d.files && d.files[d.lock.value].nonce == Some(step.nonce)
        then At(s, p, Releasing(step.nonce, step.own)) else At(s, p, Outside)
      case Release(_) => At(s.(disk := d.(lock := None)), p, Outside)
      case GiveUp(_) => At(s, p, Outside)
      case Crash(_) => At(s, p, Outside)
  }

  /** There may be a lock on the disk, and no process is running. */
  predicate Initial(s: LockState) {
    && (s.disk.lock.Some? ==> s.disk.lock.value in s.disk.files)
    && forall p :: 0 <= p < |s.procs| ==> s.procs[p].Outside?
  }

  ghost predicate IsRun(states: seq<LockState>, events: seq<Event>) {
    && |states| == |events| + 1 && Initial(states[0])
    && forall i :: 0 <= i < |events| ==> Enabled(states[i], events[i]) && states[i + 1] == Next(states[i], events[i])
  }

  // ---------------------------------------------------------------------------
  // What the protocol relies on
  // ---------------------------------------------------------------------------

  /** No lock ages past the limit, in milliseconds, while its creator holds it. */
  ghost predicate HoldersFresh(s: LockState) {
    forall p :: 0 <= p < |s.procs| && Holds(s.procs[p]) ==>
      s.procs[p].own in s.disk.files && s.now - s.disk.files[s.procs[p].own].mtime <= s.staleMs * 1_000
  }

  /** No process dies with somebody's lock moved away. */
  ghost predicate NoCrashMidSteal(s: LockState, ev: Event) {
    ev.Crash? && ev.p < |s.procs| ==> !MidSteal(s.procs[ev.p])
  }

  ghost predicate WellBehaved(states: seq<LockState>, events: seq<Event>) {
    && IsRun(states, events)
    && (forall i :: 0 <= i < |states| ==> HoldersFresh(states[i]))
    && (forall i :: 0 <= i < |events| ==> NoCrashMidSteal(states[i], events[i]))
  }

  // ---------------------------------------------------------------------------
  // Two processes
  // ---------------------------------------------------------------------------

  /** The other process moved lock `i` away and is going to put it back. */
  ghost predicate Borrowed(s: LockState, q: Pid, i: Inode) {
    && q < |s.procs| && MidSteal(s.procs[q]) && s.disk.lock.None?
    && MovedName(s.procs[q].seen) in s.disk.moved && s.disk.moved[MovedName(s.procs[q].seen)] == i
  }

  /** A holder's lock is in its place, or borrowed; at most one process holds it. */
  ghost predicate HolderOwns(s: LockState, p: Pid, q: Pid) {
    p < |s.procs| && q < |s.procs| && Holds(s.procs[p]) ==>
      && !Holds(s.procs[q])
      && s.procs[p].own in s.disk.files
      && (s.procs[p].Created? || s.disk.files[s.procs[p].own].nonce == Some(s.procs[p].nonce))
      && (s.disk.lock == Some(s.procs[p].own) || Borrowed(s, q, s.procs[p].own))
  }

  ghost predicate SeenStale(s: LockState, p: Pid) {
    p < |s.procs| && (s.procs[p].SawStale? || MidSteal(s.procs[p]) || s.procs[p].Unlinking?) ==>
      Stale(s.now, s.procs[p].seen.mtime, s.staleMs)
  }

  ghost predicate Exclusive(s: LockState) {
    && |s.procs| == 2
    && HolderOwns(s, 0, 1) && HolderOwns(s, 1, 0) && SeenStale(s, 0) && SeenStale(s, 1)
  }

  /** One step by process `p` keeps what `p` and the other process `q` rely on. */
  lemma StepKeeps(s: LockState, ev: Event, p: Pid, q: Pid)
    requires |s.procs| == 2 && p < 2 && q == 1 - p && Enabled(s, ev) && !ev.Tick? && ev.p == p
    requires HolderOwns(s, p, q) && HolderOwns(s, q, p) && SeenStale(s, p) && SeenStale(s, q)
    requires HoldersFresh(s) && NoCrashMidSteal(s, ev)
    ensures var t := Next(s, ev);
            HolderOwns(t, p, q) && HolderOwns(t, q, p) && SeenStale(t, p) && SeenStale(t, q)
  {
  }

  lemma NextExclusive(s: LockState, ev: Event)
    requires Exclusive(s) && Enabled(s, ev) && HoldersFresh(s) && NoCrashMidSteal(s, ev)
    ensures Exclusive(Next(s, ev))
  {
    if !ev.Tick? { StepKeeps(s, ev, ev.p, 1 - ev.p); }
  }

  lemma {:induction false} RunExclusive(states: seq<LockState>, events: seq<Event>, i: nat)
    requires WellBehaved(states, events) && i < |states| && |states[0].procs| == 2
    ensures Exclusive(states[i])
    decreases i
  {
    if i > 0 {
      RunExclusive(states, events, i - 1);
      NextExclusive(states[i - 1], events[i - 1]);
    }
  }

  // ---------------------------------------------------------------------------
  // What a steal removes
  // ---------------------------------------------------------------------------

  predicate Stealing(step: Step) { MidSteal(step) || step.Unlinking? }

  /** No process dies between moving a lock and removing the moved file. */
  ghost predicate NoCrashStealing(s: LockState, ev: Event) {
    ev.Crash? && ev.p < |s.procs| ==> !Stealing(s.procs[ev.p])
  }

  function NameOf(step: Step): Name
    requires step.SawStale? || Stealing(step)
  {
    MovedName(step.seen)
  }

  /** The seen file is as it was seen, or its inode bears a much later one. */
  ghost predicate SeenOrLater(s: LockState, seen: Sight) {
    && seen.ino in s.disk.files
    && (s.disk.files[seen.ino].mtime == seen.mtime || s.disk.files[seen.ino].mtime > seen.mtime + s.staleMs * PER_MS)
  }

  /** What a process that moved a lock has under the name it moved it to. */
  ghost predicate Carries(s: LockState, step: Step) {
    Stealing(step) ==>
      && !(step.Unlinking? && step.result.Threw?)
      && NameOf(step) in s.disk.moved && s.disk.moved[NameOf(step)] in s.disk.files
      && (MidSteal(step) || step.result.Stole? ==> s.disk.lock != Some(s.disk.moved[NameOf(step)]))
      && (step.Mismatch? || (step.Unlinking? && step.result.Kept?) ==> Look(s.disk, s.disk.moved[NameOf(step)]) != step.seen)
      && (step.Unlinking? && step.result.Stole? ==> Look(s.disk, s.disk.moved[NameOf(step)]) == step.seen)
      && (s.disk.lock.Some? ==> MovedName(Look(s.disk, s.disk.lock.value)) != NameOf(step))
  }

  /** How two processes that both saw a stale lock stay out of each other's way. */
  ghost predicate Apart(s: LockState, a: Step, b: Step) {
    var d := s.disk;
    && (a.SawStale? && b.SawStale? && NameOf(a) == NameOf(b) && d.lock.Some? ==> Look(d, d.lock.value) == b.seen)
    && (a.SawStale? && Stealing(b) && NameOf(a) == NameOf(b) ==>
          && d.lock.None?
          && (if b.Moved? then NameOf(b) in d.moved && Look(d, d.moved[NameOf(b)]) == b.seen
              else b.Unlinking? && b.result.Stole?))
    && (a.SawStale? && MidSteal(b) && d.lock.Some? && NameOf(b) in d.moved ==>
          MovedName(Look(d, d.moved[NameOf(b)])) != NameOf(a))
    && (Stealing(a) && Stealing(b) ==> NameOf(a) != NameOf(b))
    && (MidSteal(a) && Stealing(b) && NameOf(a) in d.moved ==> MovedName(Look(d, d.moved[NameOf(a)])) != NameOf(b))
    && (MidSteal(a) && (MidSteal(b) || (b.Unlinking? && b.result.Stole?)) && NameOf(a) in d.moved && NameOf(b) in d.moved ==>
          d.moved[NameOf(a)] != d.moved[NameOf(b)])
  }

  ghost predicate OneSteals(s: LockState, p: Pid, q: Pid)
    requires p < |s.procs| && q < |s.procs|
  {
    && (s.procs[p].SawStale? || Stealing(s.procs[p]) ==> SeenOrLater(s, s.procs[p].seen))
    && Carries(s, s.procs[p]) && Apart(s, s.procs[p], s.procs[q])
  }

  ghost predicate Owned(s: LockState)
    requires |s.procs| == 2
  {
    && (forall n :: n in s.disk.moved ==>
          (Stealing(s.procs[0]) && NameOf(s.procs[0]) == n) || (Stealing(s.procs[1]) && NameOf(s.procs[1]) == n))
    && (forall n :: n in s.disk.moved ==> s.disk.moved[n] in s.disk.files)
    && (s.disk.lock.Some? ==> s.disk.lock.value in s.disk.files)
  }

  ghost predicate Steals(s: LockState) {
    && Exclusive(s) && 1 <= s.staleMs
    && OneSteals(s, 0, 1) && OneSteals(s, 1, 0) && Owned(s)
  }

  ghost predicate StealStep(s: LockState, ev: Event, p: Pid, q: Pid) {
    && Steals(s) && p < 2 && q == 1 - p && Enabled(s, ev) && !ev.Tick? && ev.p == p
    && HoldersFresh(s) && NoCrashStealing(s, ev)
  }

  ghost predicate StillSteals(t: LockState, p: Pid, q: Pid) {
    |t.procs| == 2 && p < 2 && q < 2 && OneSteals(t, p, q) && OneSteals(t, q, p) && Owned(t)
  }

  lemma CreateSteals(s: LockState, ev: Event, p: Pid, q: Pid)
    requires StealStep(s, ev, p, q) && ev.TryCreate?
    ensures StillSteals(Next(s, ev), p, q)
  {
  }

  lemma StatSteals(s: LockState, ev: Event, p: Pid, q: Pid)
    requires StealStep(s, ev, p, q) && ev.StatLock?
    ensures StillSteals(Next(s, ev), p, q)
  {
  }

  lemma RenameSteals(s: LockState, ev: Event, p: Pid, q: Pid)
    requires StealStep(s, ev, p, q) && ev.Rename?
    ensures OneSteals(Next(s, ev), p, q) && Owned(Next(s, ev))
  {
  }

  lemma RenameLeavesOther(s: LockState, ev: Event, p: Pid, q: Pid)
    requires StealStep(s, ev, p, q) && ev.Rename?
    ensures OneSteals(Next(s, ev), q, p)
  {
  }

  lemma StatMovedSteals(s: LockState, ev: Event, p: Pid, q: Pid)
    requires StealStep(s, ev, p, q) && ev.StatMoved?
    ensures OneSteals(Next(s, ev), p, q) && Owned(Next(s, ev))
  {
    assert Next(s, ev).disk == s.disk;
  }

  lemma StatMovedLeavesOther(s: LockState, ev: Event, p: Pid, q: Pid)
    requires StealStep(s, ev, p, q) && ev.StatMoved?
    ensures OneSteals(Next(s, ev), q, p)
  {
    assert Next(s, ev).disk == s.disk;
    assert s.procs[q].SawStale? && NameOf(s.procs[q]) == NameOf(s.procs[p]) ==> !Next(s, ev).procs[p].Mismatch?;
  }

  lemma LinkSteals(s: LockState, ev: Event, p: Pid, q: Pid)
    requires StealStep(s, ev, p, q) && ev.Link?
    ensures StillSteals(Next(s, ev), p, q)
  {
  }

  lemma UnlinkSteals(s: LockState, ev: Event, p: Pid, q: Pid)
    requires StealStep(s, ev, p, q) && ev.Unlink?
    ensures StillSteals(Next(s, ev), p, q)
  {
  }

  lemma WriteSteals(s: LockState, ev: Event, p: Pid, q: Pid)
    requires StealStep(s, ev, p, q) && ev.WriteNonce?
    ensures StillSteals(Next(s, ev), p, q)
  {
  }

  lemma RestSteals(s: LockState, ev: Event, p: Pid, q: Pid)
    requires StealStep(s, ev, p, q) && (ev.Enter? || ev.ReadBack? || ev.Release? || ev.GiveUp? || ev.Crash?)
    ensures StillSteals(Next(s, ev), p, q)
  {
  }

  lemma NextSteals(s: LockState, ev: Event)
    requires Steals(s) && Enabled(s, ev) && HoldersFresh(s) && NoCrashStealing(s, ev)
    ensures Steals(Next(s, ev))
  {
    NextExclusive(s, ev);
    if !ev.Tick? {
      var p, q := ev.p, 1 - ev.p;
      match ev
      case TryCreate(_, _) => CreateSteals(s, ev, p, q);
      case StatLock(_) => StatSteals(s, ev, p, q);
      case Rename(_) => RenameSteals(s, ev, p, q); RenameLeavesOther(s, ev, p, q);
      case StatMoved(_) => StatMovedSteals(s, ev, p, q); StatMovedLeavesOther(s, ev, p, q);
      case Link(_) => LinkSteals(s, ev, p, q);
      case Unlink(_) => UnlinkSteals(s, ev, p, q);
      case WriteNonce(_) => WriteSteals(s, ev, p, q);
      case Enter(_, _) => RestSteals(s, ev, p, q);
      case ReadBack(_) => RestSteals(s, ev, p, q);
      case Release(_) => RestSteals(s, ev, p, q);
      case GiveUp(_) => RestSteals(s, ev, p, q);
      case Crash(_) => RestSteals(s, ev, p, q);
    }
  }

  lemma {:induction false} RunSteals(states: seq<LockState>, events: seq<Event>, i: nat)
    requires WellBehaved(states, events) && i < |states| && |states[0].procs| == 2
    requires states[0].disk.moved == map[] && 1 <= states[0].staleMs
    requires forall k :: 0 <= k < |events| ==> NoCrashStealing(states[k], events[k])
    ensures Steals(states[i])
    decreases i
  {
    if i > 0 {
      RunSteals(states, events, i - 1);
      NextSteals(states[i - 1], events[i - 1]);
    }
  }

  // ---------------------------------------------------------------------------
  // Main results
  // ---------------------------------------------------------------------------

  /** Of two processes at most one holds the lock. */
  lemma MutualExclusion(states: seq<LockState>, events: seq<Event>, i: nat, p: Pid, q: Pid)
    requires WellBehaved(states, events) && i < |states| && |states[0].procs| == 2
    requires p < |states[i].procs| && q < |states[i].procs| && p != q
    ensures !(Holds(states[i].procs[p]) && Holds(states[i].procs[q]))
  {
    RunExclusive(states, events, i);
  }

  /** A holder's lock is where it was made, or moved away by a process that puts it back; when the
      holder releases, what it removes is its own. */
  lemma HolderKeepsItsLock(states: seq<LockState>, events: seq<Event>, i: nat, p: Pid)
    requires WellBehaved(states, events) && i < |states| && |states[0].procs| == 2
    requires p < |states[i].procs| && Holds(states[i].procs[p])
    ensures |states[i].procs| == 2
    ensures var d, step := states[i].disk, states[i].procs[p];
            && step.own in d.files && (!step.Created? ==> d.files[step.own].nonce == Some(step.nonce))
            && (d.lock == Some(step.own) || (Borrowed(states[i], 1 - p, step.own) && d.lock.None?))
    ensures states[i].procs[p].Releasing? ==>
              states[i].disk.lock.Some? ==> states[i].disk.lock.value == states[i].procs[p].own
  {
    RunExclusive(states, events, i);
  }

  /** A steal about to report success removes exactly the file it saw stale: nobody holds that lock
      and it is no longer in place. One about to report failure saw another file, and no steal ever
      finds that the file it moved is gone. */
  lemma StealRemovesWhatItSaw(states: seq<LockState>, events: seq<Event>, i: nat, p: Pid)
    requires WellBehaved(states, events) && i < |states| && |states[0].procs| == 2
    requires states[0].disk.moved == map[] && 1 <= states[0].staleMs
    requires forall k :: 0 <= k < |events| ==> NoCrashStealing(states[k], events[k])
    requires p < |states[i].procs| && states[i].procs[p].Unlinking?
    ensures var s := states[i];
            var step := s.procs[p];
            var n := MovedName(step.seen);
            && step.result != Threw && n in s.disk.moved
            && (step.result == Stole <==> Look(s.disk, s.disk.moved[n]) == step.seen)
            && (step.result == Stole ==>
                  && s.disk.lock != Some(step.seen.ino) && s.now - step.seen.mtime > s.staleMs * 1_000
                  && forall q :: 0 <= q < |s.procs| && Holds(s.procs[q]) ==> s.procs[q].own != step.seen.ino)
  {
    RunSteals(states, events, i);
    assert HoldersFresh(states[i]);
    assert OneSteals(states[i], p, 1 - p);
  }

  // ---------------------------------------------------------------------------
  // Where the protocol ends
  // ---------------------------------------------------------------------------

  /** A run in which every holder stays fresh; `sure` when in addition no process crashes. */
  ghost predicate FreshRun(states: seq<LockState>, events: seq<Event>, sure: bool) {
    && IsRun(states, events)
    && (forall i :: 0 <= i < |states| ==> HoldersFresh(states[i]))
    && (sure ==> forall i :: 0 <= i < |events| ==> !events[i].Crash?)
  }

  lemma Extend(states: seq<LockState>, events: seq<Event>, sure: bool, ev: Event, t: LockState)
    returns (more: seq<LockState>, evs: seq<Event>)
    requires FreshRun(states, events, sure) && Enabled(Last(states), ev) && Next(Last(states), ev) == t
    requires HoldersFresh(t) && (sure ==> !ev.Crash?)
    ensures FreshRun(more, evs, sure) && Last(more) == t && more[0] == states[0]
  {
    more, evs := states + [t], events + [ev];
  }

  const TIME := STALE_LOCK_MS * PER_MS + 1
  const DEAD := Sight(0, 0)

  // The disk at each point: inode 0 was left by a crash long ago, 1 and 2 are made now.
  const DISK_DEAD := Disk(Some(0), map[], map[0 := File(0, None)])
  const DISK_DEAD_MOVED := Disk(None, map[MovedName(DEAD) := 0], map[0 := File(0, None)])
  const DISK_GONE := Disk(None, map[], map[0 := File(0, None)])
  const DISK_CREATED := Disk(Some(1), map[], map[0 := File(0, None), 1 := File(TIME, None)])
  const DISK_FIRST := Disk(Some(1), map[], map[0 := File(0, None), 1 := File(TIME, Some(1))])
  const DISK_FIRST_MOVED := Disk(None, map[MovedName(DEAD) := 1], map[0 := File(0, None), 1 := File(TIME, Some(1))])
  const DISK_SECOND_CREATED := Disk(Some(2), map[MovedName(DEAD) := 1], map[0 := File(0, None), 1 := File(TIME, Some(1)), 2 := File(TIME, None)])
  const DISK_BOTH := Disk(Some(2), map[MovedName(DEAD) := 1], map[0 := File(0, None), 1 := File(TIME, Some(1)), 2 := File(TIME, Some(3))])

  function Scene(d: Disk, procs: seq<Step>): LockState { LockState(d, procs, TIME, STALE_LOCK_MS) }

  function Team(a: Step, b: Step, three: bool): seq<Step> { if three then [a, b, Outside] else [a, b] }

  /** A process sees a dead lock, */
  lemma OneSeesIt(three: bool) returns (states: seq<LockState>, events: seq<Event>)
    ensures FreshRun(states, events, true) && states[0] == Scene(DISK_DEAD, Team(Outside, Outside, three))
    ensures Last(states) == Scene(DISK_DEAD, Team(SawStale(1, DEAD), Outside, three))
  {
    states, events := [Scene(DISK_DEAD, Team(Outside, Outside, three))], [];
    states, events := Extend(states, events, true, Enter(0, 1), Scene(DISK_DEAD, Team(Trying(1), Outside, three)));
    states, events := Extend(states, events, true, TryCreate(0, 1), Scene(DISK_DEAD, Team(Looking(1), Outside, three)));
    states, events := Extend(states, events, true, StatLock(0), Scene(DISK_DEAD, Team(SawStale(1, DEAD), Outside, three)));
  }

  /** and then another does; */
  lemma BothSeeIt(three: bool) returns (states: seq<LockState>, events: seq<Event>)
    ensures FreshRun(states, events, true) && states[0] == Scene(DISK_DEAD, Team(Outside, Outside, three))
    ensures Last(states) == Scene(DISK_DEAD, Team(SawStale(1, DEAD), SawStale(2, DEAD), three))
  {
    states, events := OneSeesIt(three);
    states, events := Extend(states, events, true, Enter(1, 2), Scene(DISK_DEAD, Team(SawStale(1, DEAD), Trying(2), three)));
    states, events := Extend(states, events, true, TryCreate(1, 1), Scene(DISK_DEAD, Team(SawStale(1, DEAD), Looking(2), three)));
    states, events := Extend(states, events, true, StatLock(1), Scene(DISK_DEAD, Team(SawStale(1, DEAD), SawStale(2, DEAD), three)));
  }

  lemma FirstMovesIt(three: bool) returns (states: seq<LockState>, events: seq<Event>)
    ensures FreshRun(states, events, true) && states[0] == Scene(DISK_DEAD, Team(Outside, Outside, three))
    ensures Last(states) == Scene(DISK_DEAD_MOVED, Team(Moved(1, DEAD), SawStale(2, DEAD), three))
  {
    states, events := BothSeeIt(three);
    states, events := Extend(states, events, true, Rename(0), Scene(DISK_DEAD_MOVED, Team(Moved(1, DEAD), SawStale(2, DEAD), three)));
  }

  /** the first takes it over, */
  lemma FirstTakesOver(three: bool) returns (states: seq<LockState>, events: seq<Event>)
    ensures FreshRun(states, events, true) && states[0] == Scene(DISK_DEAD, Team(Outside, Outside, three))
    ensures Last(states) == Scene(DISK_GONE, Team(Trying(1), SawStale(2, DEAD), three))
  {
    states, events := FirstMovesIt(three);
    states, events := Extend(states, events, true, StatMoved(0), Scene(DISK_DEAD_MOVED, Team(Unlinking(1, DEAD, Stole), SawStale(2, DEAD), three)));
    states, events := Extend(states, events, true, Unlink(0), Scene(DISK_GONE, Team(Trying(1), SawStale(2, DEAD), three)));
  }

  lemma FirstLocks(three: bool) returns (states: seq<LockState>, events: seq<Event>)
    ensures FreshRun(states, events, true) && states[0] == Scene(DISK_DEAD, Team(Outside, Outside, three))
    ensures Last(states) == Scene(DISK_FIRST, Team(Critical(1, 1), SawStale(2, DEAD), three))
  {
    states, events := FirstTakesOver(three);
    states, events := Extend(states, events, true, TryCreate(0, 1), Scene(DISK_CREATED, Team(Created(1, 1), SawStale(2, DEAD), three)));
    states, events := Extend(states, events, true, WriteNonce(0), Scene(DISK_FIRST, Team(Critical(1, 1), SawStale(2, DEAD), three)));
  }

  /** and the second moves the new lock away. */
  lemma NewLockMoved(three: bool) returns (states: seq<LockState>, events: seq<Event>)
    ensures FreshRun(states, events, true) && states[0] == Scene(DISK_DEAD, Team(Outside, Outside, three))
    ensures Last(states) == Scene(DISK_FIRST_MOVED, Team(Critical(1, 1), Moved(2, DEAD), three))
  {
    states, events := FirstLocks(three);
    states, events := Extend(states, events, true, Rename(1), Scene(DISK_FIRST_MOVED, Team(Critical(1, 1), Moved(2, DEAD), three)));
  }

  /** With a third process the exclusion fails although every holder is fresh and none crashes: while
      the second has the first one's lock moved away, the third makes its own. */
  lemma ThreeProcessesCollide() returns (states: seq<LockState>, events: seq<Event>)
    ensures WellBehaved(states, events) && |states[0].procs| == 3 && states[0].staleMs == 150_000
    ensures |Last(states).procs| == 3 && Last(states).procs[0].Critical? && Last(states).procs[2].Critical?
  {
    states, events := NewLockMoved(true);
    states, events := Extend(states, events, true, Enter(2, 3), Scene(DISK_FIRST_MOVED, [Critical(1, 1), Moved(2, DEAD), Trying(3)]));
    states, events := Extend(states, events, true, TryCreate(2, 2), Scene(DISK_SECOND_CREATED, [Critical(1, 1), Moved(2, DEAD), Created(3, 2)]));
    states, events := Extend(states, events, true, WriteNonce(2), Scene(DISK_BOTH, [Critical(1, 1), Moved(2, DEAD), Critical(3, 2)]));
  }

  /** Nor does it survive a process that dies with the lock moved away, with only two of them. */
  lemma CrashMidStealCollides() returns (states: seq<LockState>, events: seq<Event>)
    ensures FreshRun(states, events, false) && |states[0].procs| == 2 && states[0].staleMs == 150_000
    ensures |Last(states).procs| == 2 && Last(states).procs[0].Critical? && Last(states).procs[1].Critical?
  {
    states, events := NewLockMoved(false);
    states, events := Extend(states, events, false, Crash(1), Scene(DISK_FIRST_MOVED, [Critical(1, 1), Outside]));
    states, events := Extend(states, events, false, Enter(1, 3), Scene(DISK_FIRST_MOVED, [Critical(1, 1), Trying(3)]));
    states, events := Extend(states, events, false, TryCreate(1, 2), Scene(DISK_SECOND_CREATED, [Critical(1, 1), Created(3, 2)]));
    states, events := Extend(states, events, false, WriteNonce(1), Scene(DISK_BOTH, [Critical(1, 1), Critical(3, 2)]));
  }
}
