/**
 One process at the lock file, with nobody else there: the steal and the retry loop as they run.
 */
module FileLockClient {
  import opened Wrappers
  import opened FileLock

  /** Nothing is moved away, and the lock in place is a file that exists. */
  predicate Quiet(d: Disk) { d.moved == map[] && (d.lock.Some? ==> d.lock.value in d.files) }

  predicate LockIsStale(d: Disk, now: nat, staleMs: nat) {
    d.lock.Some? && d.lock.value in d.files && now - d.files[d.lock.value].mtime > staleMs * 1_000
  }

  /** The lock in place holds the nonce. */
  predicate Bears(d: Disk, nonce: Nonce) {
    d.lock.Some? && d.lock.value in d.files && d.files[d.lock.value].nonce == Some(nonce)
  }

  class Client {
    var disk: Disk
    var now: nat
    const freshInode: Disk -> Inode

    constructor (disk: Disk, now: nat, freshInode: Disk -> Inode)
      ensures this.disk == disk && this.now == now && this.freshInode == freshInode
    {
      this.disk, this.now, this.freshInode := disk, now, freshInode;
    }

    /** Removes the lock if it is stale, unless another took its place after the check, which is then
        put back. `meanwhile` is what others do to the disk between the check and the move. */
    method StealStaleLock(staleMs: nat, meanwhile: Disk -> Disk) returns (stolen: bool)
      requires Quiet(disk) && Quiet(meanwhile(disk))
      modifies this`disk
      ensures var d := meanwhile(old(disk));
              && (stolen <==> LockIsStale(old(disk), now, staleMs) && d.lock.Some?
                              && Look(d, d.lock.value) == Look(old(disk), old(disk).lock.value))
              && (stolen ==> disk == d.(lock := None))
              && (!stolen ==> disk == if LockIsStale(old(disk), now, staleMs) then d else old(disk))
    {
      if disk.lock.None? { return false; }
      var seen := Look(disk, disk.lock.value);
      if !Stale(now, seen.mtime, staleMs) { return false; }
      disk := meanwhile(disk);
      var moved := MovedName(seen);
      var renamed := RenameLock(disk, moved);
      if renamed.None? { return false; }
      disk := renamed.value;
      var found := Look(disk, disk.moved[moved]);
      if found != seen {
        disk := FileLock.LinkBack(disk, moved);
      }
      disk := FileLock.UnlinkMoved(disk, moved);
      assert disk.moved == map[];
      return found == seen;
    }

    method Sleep(ms: nat)
      modifies this`now
      ensures now >= old(now) + ms * PER_MS
    {
      var late: int := *;
      now := now + ms * PER_MS + if late > 0 then late else 0;
    }

    /** Waits for the lock, at most about `timeoutMs`. A waiter that outlasts the staleness limit does not
        time out on a lock nobody holds any more. */
    method Acquire(nonce: Nonce, timeoutMs: nat, staleMs: nat) returns (own: Option<Inode>)
      requires Quiet(disk) && forall d :: !Linked(d, freshInode(d))
      modifies this
      ensures own.Some? ==>
                && disk.lock == own && own.value in disk.files && disk.files[own.value].nonce == Some(nonce)
                && (old(disk).lock.Some? ==> LockIsStale(old(disk), now, staleMs))
      ensures own.None? ==> disk == old(disk) && disk.lock.Some? && now >= old(now) + timeoutMs * 1_000
      ensures (timeoutMs > staleMs && (old(disk).lock.Some? ==> old(disk).files[old(disk).lock.value].mtime <= old(now)))
                ==> own.Some?
    {
      var deadline := now + timeoutMs * PER_MS;
      while true
        invariant Quiet(disk) && now >= old(now)
        invariant disk == old(disk) || (disk == old(disk).(lock := None) && LockIsStale(old(disk), now, staleMs))
        decreases if disk.lock.Some? then 1 else 0, deadline - now
      {
        if disk.lock.None? {
          var ino := freshInode(disk);
          disk := disk.(lock := Some(ino), files := disk.files[ino := File(now, None)]);
          disk := disk.(files := disk.files[ino := File(now, Some(nonce))]);
          return Some(ino);
        }
        var stolen := StealStaleLock(staleMs, d => d);
        if !stolen {
          if now >= deadline { return None; }
          Sleep(RETRY_MS);
        }
      }
    }

    method ReleaseLock(nonce: Nonce)
      modifies this`disk
      ensures !Bears(disk, nonce)
      ensures disk.moved == old(disk).moved && disk.files == old(disk).files
      ensures disk.lock == if Bears(old(disk), nonce) then None else old(disk).lock
    {
      if disk.lock.Some? && disk.lock.value in disk.files && disk.files[disk.lock.value].nonce == Some(nonce) {
        disk := disk.(lock := None);
      }
    }

    /** Runs `work` under the lock. It gets everything the body and other processes do to the disk until
        the release, so it may end with another process's lock in place. `entered` is where it began. */
    method WithLockFile(nonce: Nonce, timeoutMs: nat, staleMs: nat, work: Disk -> Disk)
      returns (ran: bool, ghost entered: Disk)
      requires Quiet(disk) && forall d :: !Linked(d, freshInode(d))
      modifies this
      ensures ran ==> Bears(entered, nonce) && (old(disk).lock.Some? ==> LockIsStale(old(disk), now, staleMs))
      ensures ran ==> forall i :: work(entered).lock == Some(i) ==>
                disk.lock == if Bears(work(entered), nonce) then None else Some(i)
      ensures ran ==> !Bears(disk, nonce) && disk.moved == work(entered).moved && disk.files == work(entered).files
      ensures !ran ==> disk == old(disk) && disk.lock.Some? && now >= old(now) + timeoutMs * 1_000
      ensures (timeoutMs > staleMs && (old(disk).lock.Some? ==> old(disk).files[old(disk).lock.value].mtime <= old(now)))
                ==> ran
    {
      entered := disk;
      var own := Acquire(nonce, timeoutMs, staleMs);
      if own.None? { return false, disk; }
      entered := disk;
      disk := work(disk);
      ReleaseLock(nonce);
      return true, entered;
    }
  }
}
