# Verified model of the constellation core

A Dafny 4.11 model of the parts of the system where state, interleaving or a loop decide whether it is
right, with the properties proved of it. `dafny verify dfyconfig.toml` checks everything.

| files | what they model |
|---|---|
| `RotationProtocol`, `RotationSafety`, `RotationGrant`, `RotationMachines` | rotating an executor's token between the relay and a node or a hub: pending rotations and their TTL at the relay, the new token beside the displaced one on the executor's disk, the reconnect that confirms |
| `SubnodeModel`, `SubnodeSafety`, `SubnodeEvents`, `SubnodeLogs`, `SubnodeRuns`, `SubnodeQueue`, `SubnodeOutcome`, `SubnodeStall`, `SubnodePool` | the hub's pool of worker processes: per user a lock, spawning, a bounded queue, requests in flight, timers, eviction, shutdown |
| `Glob`, `Re2`, `GlobCompiler`, `GlobFilters`, `PathFilter`, `TreeWalk`, `GrepWalk` | globs compiled to RE2 source, the path filter built from them, and the pruning walks of `list_directory`, `find_files` and `grep_files` |
| `FileLock`, `FileLockClient`, `SessionRefresh` | the lock file as a file-system protocol between processes, and the refresh of a rotating sign-in under it |
| `Registry`, `ShareTable` | the relay's connections and pending calls; the tables of shares |
| `RateLimiter` | the sliding-window limiter, against one that remembers every call |
| `TreeCopy`, `TreeDisk`, `CopySteps` | recursive copy and the move to another file system, on a disk that may fail at any operation, and when the copy ends at all |
| `SequentialEdit` | `edit_file` |
| `EnvText`, `EnvFile` | the env-file writer, reader and loader |
| `DevicePoll` | polling for a device sign-in, section 3.5 of RFC 8628 |

Where the source is a function or a protocol step, the model has a specification function (or a step
predicate) over values; where it changes fields or runs a loop, the model also has a class or method that does
so and is proved equal to the specification. The main results are lemmas about every input, every run or every
reachable state of the specification.

## What the models assume

- **Rotation.** Authenticating an upgrade, completing a rotation and the client's open handler are one step
  that commits; closing a socket ends delivery on it, so that a
  request is only answered on a socket opened with the row's token (`OneTokenExactlyOnCurrentSocket` says what
  depends on it); a registration or revocation and its cancellation of
  pending rotations are one step; minted tokens are new. The relay's awaits in between are not modelled.
- **Worker pool.** The code between two awaits is one step. Lock callbacks do not throw, request ids are new,
  a disconnected worker sends no message, and a worker getting ready, its joining the pool and its first send
  are one step (they are consecutive microtasks). `max` is at least `min`, which is at least 1, as the
  configuration demands. The user-id policy, the outcome of group checks, whether a fork or a send succeeds and
  the clock are parameters of the events. The idle timer may fire on a busy worker, as it can in the code.
- **Lock file.** Each file-system call is atomic, and a name or an open file keeps its inode from being reused.
  Mutual exclusion holds for two processes whose locks never go stale while held, if no process dies between
  moving a lock and putting it back; `ThreeProcessesCollide` and `CrashMidStealCollides` are runs that show
  both limits are needed.
- **Session.** A grant replaces the refresh token, the server's answer arrives, a grant or `invalid_grant`, and
  the process lives to write the file or delete it. `LostAnswerReplays` shows what happens otherwise.
- **Registry.** Request ids and sockets are new.
- **Rate limiter.** Times do not run backwards; `ClockRunningBackwards` and `ClockMustNotRunBackwards` show why.
- **Share tables.** A transaction is one step; an executor's rows belong to its user.
- **Copy and move.** A directory is not copied into itself; `EndsExactlyWhenOutside` shows why. A disk is good
  for some number of operations and fails from then on. No one else changes the tree.

## What the model shows the code does not do

- A steal of a stale lock is safe between two processes, not three (`ThreeProcessesCollide`).
- A filter on the root directory covers nothing in it, although the comment on the matcher promises that any
  ancestor counts: the walk up the path stops short of the root (`RootFilterCoversNothingBelow`). The root is the
  only absolute path whose children do not inherit its block (`ChildrenInheritExactlyBelowRoot`).
- A copy of a directory into itself never ends (`EndsExactlyWhenOutside`).
- A copy of a regular file onto a dangling symbolic link reports success and copies nothing
  (`CopyOntoDanglingLink`; `Disk.CopyPath` has the exact condition), and a move to another file system onto one
  removes the file without having copied it (`MoveOntoDanglingLink`, `NothingCopied`).
- A move to another file system drops symbolic links (`MoveKeepsAllButSymlinks`).
- A glob with an empty negated class compiles to a source that RE2 reads as one long class
  (`EmptyClassSwallows`; `ReadBackExactlyWhenPlain` says which classes are read back as meant), and `**` stops at
  a line break (`LineBreakStopsGlobstar`).
- `list_directory` says that it is truncated when it has reached its limit or was kept out of a directory by the
  depth limit, even if nothing was left to list; `ListDirectory` says when something is missing.
- `edit_file` counts matches that do not overlap, so that a text which occurs twice can pass for one that occurs
  once, exactly when it begins the way it ends (`OneMeansOnceExactlyWhenBorderless`); and a write that fails
  after the truncation leaves the file empty (`EditedFile.EditFile`).
- An env value with U+2028 or U+2029 in it reads as missing although the hub loads it (`ReadBack`,
  `LoaderAgrees`); the comment on the writer names only line breaks and NUL.
- In the worker pool, a drain whose send is refused ends there, with its worker idle and the queue waiting
  (`RefusedSendStalls`, and from the start of a run `QueueWaitsBesideIdleWorker`), until the user's next request
  takes the worker and its answer takes the queue up (`NextRequestTakesQueueUp`).
- A rate limiter whose clock runs backwards refuses calls that the full history allows
  (`ClockMustNotRunBackwards`).

## Model

| member | source | states |
|---|---|---|
| RotationSafety.CredentialNeverLost | packages/node/src/connection.ts:140-207 | in every reachable state, through lost replies, timeouts, TTL expiry, second requests, relay restarts and crashes between the hub's two writes, the token an untouched executor's row references never expires, is unrevoked and is one of the two on its disk |
| RotationSafety.ResolvesToItself | packages/relay/src/hub.ts:192-252 | the token an executor presents is never resolved to another executor's row |
| RotationSafety.RelayInvariants | packages/relay/src/hub.ts:609-672 | one lasting unrevoked token per executor and none after a revocation, at most one pending rotation and over the row's token, armed timers exactly the pending rotations |
| RotationSafety.TimersSpareRowTokens | packages/relay/src/hub.ts:637-672 | neither a TTL expiry nor a cancellation touches a token some row references |
| RotationSafety.ConfirmedRotation | packages/relay/src/hub.ts:298-315 | a confirmed rotation leaves the new token as the only credential on both sides, and the displaced one unusable |
| RotationSafety.OneTokenExactlyOnCurrentSocket | packages/relay/src/hub.ts:644-648 | a rotation answered on a socket opened with any token ends with the new token as the executor's only lasting one exactly when that token was the row's; otherwise the displaced one stays live for good |
| RotationGrants.GrantLastsFiveMinutes | packages/relay/src/hub.ts:609-653 | a request that is not refused leaves the new token pending for its executor and no other, usable and the executor's until five minutes after and not a moment later |
| RotationGrants.GrantIsHonoured | packages/relay/src/hub.ts:192-315 | over every run: after a grant, and while the relay does not restart, nobody registers or revokes the executor, it asks for no other token, the grant's timer does not fire and its promotion does not fail in the database, the executor's reconnect with the granted token within the five minutes is possible and makes it the row's token, for good |
| RotationGrants.RotationGoesThrough | packages/node/src/connection.ts:91-207 | from any state that keeps the joint invariant, a connected executor with nothing under way that did not ask within the minute can rotate its token: request, grant, storage, any wait of up to five minutes and reconnect are each possible in turn, and end with the new token alone in its row and on its disk |
| RotationGrants.GrantIsStored | packages/node/src/connection.ts:140-207 | the reply to the request that is outstanding, delivered and stored, puts the granted token beside the displaced one on the disk and in use |
| RotationSafety.MintSound | packages/relay/src/hub.ts:609-653 | preparing a rotation, on a connection opened with the row's token, keeps the relay's invariants |
| RotationSafety.ExpireSound | packages/relay/src/hub.ts:637-642 | so does a TTL expiry, whether or not its database write succeeds |
| RotationSafety.AdmitSound | packages/relay/src/hub.ts:298-315 | so does the promotion of a pending token, which resolves to the executor the token was minted for |
| RotationSafety.RegisterSound | packages/relay/src/executors.ts:86-149 | so does replacing an executor's token by registering it again |
| RotationSafety.RevokeTokenSound | packages/relay/src/api.ts:113-147 | so does an administrator's revocation, after which no lasting token is left |
| RotationSafety.PruneSound | packages/relay/src/hub.ts:824-841 | so does pruning orphaned tokens, which leaves the ones rows reference as they are |
| RotationSafety.PruneDeletes | packages/relay/src/hub.ts:824-841 | pruning deletes exactly the tokens in no row that were revoked more than an hour before, and ends none that could still be used |
| RotationSafety.NextSound | packages/relay/src/hub.ts:283-315 | every event of the two machines keeps the joint invariant |
| RotationMachines.Relay.CancelPendingRotation | packages/relay/src/hub.ts:658-672 | the loop over the pending map drops and revokes exactly the executor's entries, none of which can be used after |
| RotationMachines.Relay.HandleRotateToken | packages/relay/src/hub.ts:609-653 | refused exactly within a minute of the last request; else the granted token is usable until five minutes from now and no longer, it belongs to the executor, and it is the only grant left that can be used |
| RotationMachines.Relay.TtlFired | packages/relay/src/hub.ts:637-642 | the timer's handler is the expiry step, after which the token can not be used |
| RotationMachines.Relay.HandleUpgrade | packages/relay/src/hub.ts:192-315 | an upgrade is admitted exactly when its token is live and belongs to an executor; a promoted token is the row's, without an end, and the one it displaces can not be used |
| RotationMachines.Relay.RegisterExecutor | packages/relay/src/executors.ts:86-149 | registration installs the new token without an end and cancels what was pending; the token before it can not be used |
| RotationMachines.Relay.RevokeExecutorToken | packages/relay/src/api.ts:113-147 | revocation leaves the row with a token that can not be used and nothing pending, and reports whether there was a live one |
| RotationMachines.Daemon.RotateToken | packages/node/src/connection.ts:91-104 | at most one request is outstanding: one goes out exactly when none is, every request's caller is told the outcome once, and no request stores more than one token |
| RotationMachines.Daemon.FailRotation | packages/node/src/connection.ts:108-115 | a failure settles the request that is outstanding, and leaves the disk alone |
| RotationMachines.Daemon.OnTokenRotated | packages/hub/src/index.ts:265-306 | an expected token is stored beside the one it displaces, which for a node is the file's and for a hub the one in use, in one write or two, any of which may fail; then the old one stays in use; an unexpected one changes nothing |
| RotationMachines.Daemon.OnOpen | packages/node/src/connection.ts:140-151 | a confirming reconnect clears the displaced token and settles the request |
| SubnodeRuns.InExactlyOnePlace | packages/hub/src/subnode.ts:345-703 | in every state of every run each request that arrived is in exactly one place (group check, lock, spawn, queue, drain, in flight on one unremoved worker, settled), with a queue or RPC timer armed exactly where that place calls for it |
| SubnodeRuns.SettledAtMostOnce | packages/hub/src/subnode.ts:345-703 | settlements are never undone, no request is settled twice, and its outcome stays |
| SubnodeRuns.SentOnlyToOwnIdentity | packages/hub/src/subnode.ts:359-389 | whatever was ever sent, to a reused, a new or a draining worker, went to one whose fixed uid and gid are the request's |
| SubnodeRuns.AnsweredOnlyByItsWorker | packages/hub/src/subnode.ts:517-522 | a caller is given an answer only when the live, ready worker its request is in flight on responded to it |
| SubnodeRuns.PoolBounds | packages/hub/src/subnode.ts:377-404 | workers and the one being spawned never exceed the maximum, a queue has workers, and each of them is busy or draining but for those whose own last send was refused |
| SubnodeRuns.DequeuedInOrder | packages/hub/src/subnode.ts:557-590 | requests leave a queue in the order they joined it, all before those still in it |
| SubnodeQueues.QueuedSince | packages/hub/src/subnode.ts:391-404 | over every run: a queued request was given the lock of that subnode at some step, has been in its queue ever since, and its deadline is the time of that step plus the configured one |
| SubnodeQueues.ReachedInTime | packages/hub/src/subnode.ts:557-590 | over every run: a queued request that a worker's answer makes the drain reach is settled as timed out exactly when more than the configured time has passed since it was queued; else it fails with a worker of other credentials, which is removed, or as blocked by its uid, or is taken on by that worker |
| SubnodeQueues.LockDecides | packages/hub/src/subnode.ts:359-404 | over every run: the lock's holder removes exactly the idle workers of other credentials; its request then goes to an unused worker of its own, exactly when there is one; else it is queued last exactly when the maximum is reached; else a worker is started for it under its credentials, warm exactly below the minimum, or fails to start |
| SubnodeQueues.NewRequest | packages/hub/src/subnode.ts:281-313 | over every run: a new request fails while shutting down, is refused for a blocked uid with its user's workers removed and no others, and is else being checked |
| SubnodeQueues.GroupCheckEnds | packages/hub/src/subnode.ts:313-336 | over every run: a failed group check settles its request and removes its user's workers and no others; a passed one is refused exactly when the user has no subnode, a limit above 0 is set and that many exist; else the request is last in line for the lock of its user's subnode, a new one if there was none |
| SubnodeQueues.OwnSubnode | packages/hub/src/subnode.ts:319-336 | over every run: every user of the pool has the subnode of that name, and requests wait and queue in their own user's |
| SubnodeOutcomes.SpawnEnds | packages/hub/src/subnode.ts:377-391 | over every run: a worker that got ready is listed and handed the request it was started for, and a failed start fails the request |
| SubnodeOutcomes.ResponseAnswers | packages/hub/src/subnode.ts:628-638 | over every run: a worker's answer to a request it was sent settles it as answered; any other removes the worker |
| SubnodeOutcomes.AnsweredThenIdle | packages/hub/src/subnode.ts:590-601 | over every run: a worker that answered and finds its queue empty has its idle timer armed exactly when nothing else is pending |
| SubnodeOutcomes.DrainCheckEnds | packages/hub/src/subnode.ts:579-589 | over every run: a drained request whose group check passed is handed to the drain's worker, or fails with it, and is else settled with the verdict |
| SubnodeOutcomes.RpcTimerFires | packages/hub/src/subnode.ts:511-515 | over every run: a request not answered in time is settled as timed out and its worker removed |
| SubnodeOutcomes.QueueTimerFires | packages/hub/src/subnode.ts:545-550 | over every run: so is a request still queued when its timer fires, and no worker changes |
| SubnodeOutcomes.WorkerEnds | packages/hub/src/subnode.ts:598-645 | over every run: a worker whose idle timer fires or that exits is removed |
| SubnodeOutcomes.OthersFail | packages/hub/src/subnode.ts:670-703 | over every run: a request settled by an event that is not about it, and that no drain reached, failed as its worker or its subnode went |
| SubnodeOutcomes.WorkerRemoved | packages/hub/src/subnode.ts:670-703 | removing a worker takes it off its list and fails what it was sent; exactly when it was the last, what is queued fails and the user's subnode leaves the pool; no other worker or subnode changes |
| SubnodeOutcomes.PoolShutsDown | packages/hub/src/subnode.ts:750-797 | over every run: shutting down fails what is queued, removes the idle workers and leaves the busy ones as they are; the end of the grace period removes every worker |
| SubnodeRuns.RefusedSendStalls | packages/hub/src/subnode.ts:579-590 | in any state that keeps the invariants, a drain whose send is refused leaves its worker idle and listed while its queue waits |
| SubnodeStalls.QueueWaitsBesideIdleWorker | packages/hub/src/subnode.ts:579-590 | a run from an empty pool that ends in such a state, with no drain under way and nothing waiting for the lock |
| SubnodeStalls.NextRequestTakesQueueUp | packages/hub/src/subnode.ts:373-377 | that run goes on: the user's next request is sent to the idle worker ahead of the queue, and its answer drains the queue |
| SubnodeRuns.NextSteady | packages/hub/src/subnode.ts:281-797 | every event keeps all of the pool's invariants and leaves nothing in hand |
| SubnodeLogs.NextGrows | packages/hub/src/subnode.ts:281-797 | no event takes back a settlement, a send or a dequeuing, or changes an identity or a worker's credentials; none but a response answers a caller, and none but the lock lets a request join a queue |
| SubnodeRuns.DrainSound | packages/hub/src/subnode.ts:557-590 | however many queued requests a drain skips, it ends with the worker given work, removed, or idle beside an empty queue |
| SubnodeEvents.RunLockSound | packages/hub/src/subnode.ts:359-404 | removing stale workers and then reusing, spawning or queueing keeps the invariants |
| SubnodeEvents.PreparedRunsAs | packages/hub/src/subnode.ts:359-371 | after the lock's holder removed stale workers, every idle worker of the subnode runs as the request's identity |
| SubnodeEvents.ArriveSound | packages/hub/src/subnode.ts:281-313 | a new request is settled at once or waits for its group check |
| SubnodeEvents.AdmitSound | packages/hub/src/subnode.ts:313-336 | the end of the group check settles a request or puts it in line for its user's lock |
| SubnodeEvents.ReadySound | packages/hub/src/subnode.ts:382-391 | a worker that got ready joins its subnode within the maximum and gets the request it was spawned for |
| SubnodeEvents.FailSpawnSound | packages/hub/src/subnode.ts:382-386 | a failed spawn settles its request and frees the lock |
| SubnodeSafety.RemoveWorkerSound | packages/hub/src/subnode.ts:670-703 | removing a worker settles what it was sent and, with the last one, the queue, and nothing else |
| SubnodeSafety.EvictSound | packages/hub/src/subnode.ts:738-744 | evicting a user's workers keeps the invariants and spares everyone else's |
| SubnodeSafety.SendSound | packages/hub/src/subnode.ts:497-535 | a send puts the request in flight with its timer or settles it |
| SubnodeModel.DrainTurnShrinks | packages/hub/src/subnode.ts:557-590 | every turn of the drain loop shortens the queue, so it ends |
| SubnodePools.SubnodePool.RemoveWorker | packages/hub/src/subnode.ts:670-703 | the two rejecting loops and the removal from the pool do what the state machine says |
| SubnodePools.SubnodePool.EvictSubnodeWorkers | packages/hub/src/subnode.ts:738-744 | the loop over a snapshot of the workers is the eviction |
| SubnodePools.SubnodePool.SendRequest | packages/hub/src/subnode.ts:497-535 | the send of the state machine |
| SubnodePools.SubnodePool.ExpireQueued | packages/hub/src/subnode.ts:545-550 | the queue timer's handler, a no-op for a request that left the queue |
| SubnodePools.SubnodePool.OnRequestComplete | packages/hub/src/subnode.ts:557-590 | the while loop over the queue is the drain |
| SubnodePools.SubnodePool.Dispatch | packages/hub/src/subnode.ts:281-313 | a dispatch up to its group check is the arrival event, and keeps the invariants |
| SubnodePools.SubnodePool.OnChecked | packages/hub/src/subnode.ts:313-336 | the end of the group check does what `GroupCheckEnds` says, and keeps the invariants |
| SubnodePools.SubnodePool.StaleWorkers | packages/hub/src/subnode.ts:364-366 | finds the idle workers of other credentials, in order |
| SubnodePools.SubnodePool.FindIdle | packages/hub/src/subnode.ts:373-377 | finds the first worker that is ready and has nothing pending |
| SubnodePools.SubnodePool.AssignAndSend | packages/hub/src/subnode.ts:359-404 | the lock's callback does what `LockDecides` and `QueuedSince` say, and keeps the invariants |
| SubnodePools.SubnodePool.OnSpawnReady | packages/hub/src/subnode.ts:382-391 | so is the rest of it once the worker is ready |
| SubnodePools.SubnodePool.OnSpawnFailed | packages/hub/src/subnode.ts:382-386 | or once it is not |
| SubnodePools.SubnodePool.OnResponse | packages/hub/src/subnode.ts:628-638 | an answer drains the queue and settles the request; an unknown one removes the worker |
| SubnodePools.SubnodePool.OnDrainChecked | packages/hub/src/subnode.ts:579-589 | the drain after its group check |
| SubnodePools.SubnodePool.OnRpcTimeout | packages/hub/src/subnode.ts:511-515 | an RPC timeout settles its request and removes the worker |
| SubnodePools.SubnodePool.OnIdleTimeout | packages/hub/src/subnode.ts:598-601 | the idle timer removes its worker, busy or not |
| SubnodePools.SubnodePool.Shutdown | packages/hub/src/subnode.ts:750-770 | shutdown rejects every queue and removes the idle workers |
| SubnodePools.SubnodePool.ForceKillAll | packages/hub/src/subnode.ts:791-797 | the end of the grace period removes every worker |
| GlobCompiler.SourcePreservesMeaning | packages/shared/src/path-filter.ts:22-64 | for plain classes the emitted source parses in the RE2 subset and, where class ranges are valid, finds exactly the texts the glob stands for |
| GlobCompiler.FailsExactlyWhenUnclosed | packages/shared/src/path-filter.ts:42-62 | the compiler fails exactly when the glob has an unclosed bracket or brace |
| GlobCompiler.EmittedParses | packages/shared/src/path-filter.ts:22-64 | reading the emitted pieces back gives the glob's items as expressions, braces and all |
| GlobCompiler.ReadBackExactlyWhenPlain | packages/shared/src/path-filter.ts:42-49 | RE2 reads an escaped class body back as the class the glob means, and goes on after its bracket whatever comes there, exactly when the body is not empty, none of its members begins like a POSIX class, and its ranges are in order |
| GlobCompiler.ItemMatches | packages/shared/src/path-filter.ts:27-60 | each glob item and its expression match the same stretches of text |
| GlobCompiler.SeqMatches | packages/shared/src/path-filter.ts:25-61 | so do sequences of them |
| GlobCompiler.TurnAt | packages/shared/src/path-filter.ts:25-61 | one turn of the loop emits what the specification says for that position, or its error |
| GlobCompiler.GlobToRe2Source | packages/shared/src/path-filter.ts:22-64 | the index loop emits the specified source, or its error |
| GlobFilters.FilterMatchesAtAnyDepth | packages/shared/src/path-filter.ts:70-83 | a relative filter denotes the glob's language after some segment start of the path |
| GlobFilters.FilterSourceFindsGlob | packages/shared/src/path-filter.ts:70-83 | the source stored for a filter finds, in a path without line breaks, exactly what the pattern stands for: the whole path for a pattern that begins with `/` or `**`, what follows some segment start for any other |
| GlobFilters.FilterGlobStands | packages/shared/src/path-filter.ts:70-76 | the glob compiled for a pattern is read exactly when the pattern is, and denotes what the filter stands for |
| GlobFilters.AcceptedFilters | packages/shared/src/path-filter.ts:70-83 | which filters are refused and why: a length outside 1 to 1000, a glob that does not read, a source RE2 does not take; with plain classes exactly when their ranges are out of order |
| GlobFilters.SmallestGlobs | packages/shared/src/path-filter.ts:22-61 | `*` stands for any text without a slash, `?` for one character that is none, `**` for any text, and a character with no meaning of its own for itself |
| GlobFilters.LinesIrrelevant | packages/shared/src/path-filter.ts:28-36 | without line breaks the two readings of `**` agree |
| GlobFilters.LineBreakStopsGlobstar | packages/shared/src/path-filter.ts:28-36 | with one they part |
| GlobFilters.EmptyClassSwallows | packages/shared/src/path-filter.ts:42-49 | an empty negated class makes RE2 read the rest of the glob as members |
| PathFilters.BlockedIsInherited | packages/shared/src/path-filter.ts:91-117 | what is written below a blocked path, after a slash of its own, is blocked |
| TreeWalk.ChildrenInheritExactlyBelowRoot | packages/shared/src/path-filter.ts:104-115 | every child of a blocked absolute path is blocked, under every matcher, exactly when the path is not the root |
| PathFilters.RootFilterCoversNothingBelow | packages/shared/src/path-filter.ts:70-115 | the glob `/` is accepted as a filter, blocks the root and nothing in it |
| PathFilters.Blocks | packages/shared/src/path-filter.ts:104-115 | the loop that shortens the path answers whether it or a directory above it other than the root is hit, and blocks everything when a filter did not compile |
| PathFilters.CreatePathFilter | packages/shared/src/path-filter.ts:91-101 | compiles every source, and is unusable when one does not compile |
| PathFilters.GlobFiltersBlock | packages/shared/src/path-filter.ts:91-117 | filters made from globs block exactly the paths for which one stands, as its pattern reads, for the path itself or for a directory above it other than the root |
| TreeWalk.IsEntryHidden | packages/shared/src/executor/tools/path-guard.ts:14-23 | an entry is hidden by its own path or, for a link, by its target |
| TreeWalk.PrunedWalkIsFilteredWalk | packages/shared/src/executor/tools/fs-read.ts:54-86 | the pruned recursive walk shows the entries of the plain preorder walk that belong, in the same order |
| TreeWalk.KeptExactly | packages/shared/src/executor/tools/path-guard.ts:14-23 | an entry is listed exactly when no filter blocks its path or, for a link, where it leads, nothing on its way is excluded and it is not too deep |
| TreeWalk.UncutWalkIsComplete | packages/shared/src/executor/tools/fs-read.ts:77-84 | a walk the depth limit did not cut shows what it would without one |
| TreeWalk.ShowsAllExactlyWhenNothingLost | packages/shared/src/executor/tools/fs-read.ts:77-84 | the depth limit costs the walk something exactly when a directory it is kept out of has something to show |
| TreeWalk.ListDirectory | packages/shared/src/executor/tools/fs-read.ts:38-91 | the listing is the first entries of the filtered walk up to the number asked for, 2000 if none is, 10000 for 0, and never more; `truncated` is set exactly when that is reached or the depth limit kept the walk out of a directory, which the reason tells apart; nothing is missing exactly when no more entries belong than that and no such directory has anything to show |
| TreeWalk.Lister.Walk | packages/shared/src/executor/tools/fs-read.ts:54-86 | the recursive closure appends what the pruned walk shows, up to the limit |
| TreeWalk.PrunedFindIsFilteredFind | packages/shared/src/executor/tools/fs-search.ts:33-52 | the pruned find is a find over everything with hidden entries taken out |
| TreeWalk.MatchingExactly | packages/shared/src/executor/tools/fs-search.ts:33-52 | a path is found exactly when its entry's name matches and no filter blocks the path or, for a link, where it leads |
| TreeWalk.Finder.Walk | packages/shared/src/executor/tools/fs-search.ts:33-52 | the recursive closure appends the pruned matches, up to 200 |
| TreeWalk.FindFiles | packages/shared/src/executor/tools/fs-search.ts:22-56 | the answer is the first 200 matches of the filtered walk, complete unless truncated |
| GrepWalk.PrunedGrepIsFilteredGrep | packages/shared/src/executor/tools/fs-search.ts:150-165 | the pruned search finds what a search of every visible file finds |
| GrepWalk.HitsAreLines | packages/shared/src/executor/tools/fs-search.ts:121-142 | the hits in a file are exactly its matching lines, in order, each with its number from 1, its text and the path as shown |
| GrepWalk.HitsExactly | packages/shared/src/executor/tools/fs-search.ts:150-165 | a hit is exactly a matching line of a readable file whose name matches and which no filter blocks |
| GrepWalk.Grepper.SearchInFile | packages/shared/src/executor/tools/fs-search.ts:102-143 | the line loop appends a file's hits until a cap is reached |
| GrepWalk.GrepFiles | packages/shared/src/executor/tools/fs-search.ts:84-174 | the hits are the shortest beginning of all visible hits that reaches 50 matches or 100 KB, or all of them, and `truncated` says which |
| FileLock.MutualExclusion | packages/shared/src/file-lock.ts:64-91 | of two processes at most one is in the critical section, in every interleaving of the file-system steps, from any lock a crash left |
| FileLock.HolderKeepsItsLock | packages/shared/src/file-lock.ts:64-91 | a holder's lock is in place with its nonce, or moved away by a process that puts it back; its release removes its own lock only |
| FileLock.StealRemovesWhatItSaw | packages/shared/src/file-lock.ts:26-54 | a steal reports success exactly when the moved file is the one seen stale; that lock is out of place and nobody's, and no steal loses sight of the file it moved |
| FileLock.NextExclusive | packages/shared/src/file-lock.ts:26-91 | every step keeps exclusion for two processes |
| FileLock.NextSteals | packages/shared/src/file-lock.ts:26-54 | every step keeps two stealers out of each other's way |
| FileLock.ThreeProcessesCollide | packages/shared/src/file-lock.ts:36-53 | a run of three live, fresh processes that ends with two of them inside |
| FileLock.CrashMidStealCollides | packages/shared/src/file-lock.ts:36-53 | a run of two processes, one of which dies mid-steal, that ends with two inside |
| FileLockClient.Client.StealStaleLock | packages/shared/src/file-lock.ts:26-54 | removes the lock exactly when it is stale and still there after the check, and puts back one that replaced it |
| FileLockClient.Client.Acquire | packages/shared/src/file-lock.ts:70-83 | the retry loop ends with the process's own lock or after the timeout, and with a timeout above the staleness limit, as the default is, it outlasts any lock a crash left |
| FileLockClient.Client.WithLockFile | packages/shared/src/file-lock.ts:64-91 | the body begins with the process's own lock in place; whatever happens until it ends, no lock of this process is left then, and another process's lock that is in place by then stays; a call that timed out changed nothing |
| SessionRefresh.PresentedAtMostOnce | packages/cli/src/cli/session.ts:120-162 | two processes that refresh, with grants and refusals, and anyone signing in or out meanwhile, never present a refresh token twice |
| SessionRefresh.SpentTokenNeverLeft | packages/cli/src/cli/session.ts:134-160 | a spent token is in the file only while a process in the lock still owes the file its replacement or its deletion |
| SessionRefresh.OnDiskBeforeReturn | packages/cli/src/cli/session.ts:150-161 | when a refresh returns, the rotated token is unused and on disk, unless someone signed in or out since |
| SessionRefresh.LostAnswerReplays | packages/cli/src/cli/session.ts:134-148 | an answer that is lost leaves a spent token, which the next refresh presents again |
| SessionRefresh.DoKeepsUnspent | packages/cli/src/cli/session.ts:120-162 | every step of the lock, the refreshes and the sign-ins keeps the tokens about to be used unused |
| SessionRefresh.SessionStore.RefreshSession | packages/cli/src/cli/session.ts:120-162 | one refresh on every path: it succeeds exactly when the session is fresh, or refreshable, its server found and a token issued; a refreshed session has the issued access token, expiring that long after the answer, and is fresh then exactly when that is more than 30 seconds; what it returns is in the file, the file is deleted only on invalid_grant, and the stored token is presented exactly when the session is stale, its token not expired and its server found |
| Registry.SettledOnceByItsOwn | packages/relay/src/registry.ts:77-115 | a call waits with its timer armed until it is settled, once and for good, only by its own executor's answer, its timeout or its own executor's disconnect |
| Registry.SettledAsItHappened | packages/relay/src/registry.ts:77-115 | over every run: a waiting call is settled as answered exactly by its executor's answer, as timed out exactly by its timer, as disconnected exactly by the close of its executor's current connection, and by nothing else |
| Registry.SentExactlyWhenConnected | packages/relay/src/hub.ts:866-877 | over every run: a call is sent, and waits with its timer armed, exactly when its executor has a connection, which is the last one made that has not closed |
| Registry.ForeignAnswerIgnored | packages/relay/src/registry.ts:90-104 | an answer from another executor, or to a call that no longer waits, changes nothing |
| Registry.StaysReplaced | packages/relay/src/registry.ts:33-46 | a connection once replaced is never current again |
| Registry.LateCloseChangesNothing | packages/relay/src/hub.ts:412-425 | however late its close comes, neither the newer connection nor any call changes |
| Registry.CloseSettlesItsCalls | packages/relay/src/hub.ts:412-425 | the close of the current connection settles exactly its executor's waiting calls |
| Registry.StepSound | packages/relay/src/registry.ts:33-115 | every event keeps the registry's invariant |
| Registry.Relay.RegisterConnection | packages/relay/src/registry.ts:33-37 | returns the connection it replaces |
| Registry.Relay.UnregisterConnection | packages/relay/src/registry.ts:42-46 | removes only the connection that is current |
| Registry.Relay.OnClose | packages/relay/src/hub.ts:412-425 | the close handler is the close event |
| Registry.Relay.RejectPendingRpcsForExecutor | packages/relay/src/registry.ts:107-115 | the loop rejects exactly the executor's calls |
| Registry.Relay.DispatchRpc | packages/relay/src/hub.ts:866-877 | refuses an executor without a connection, and else registers the call with its timer |
| Registry.Relay.ResolvePendingRpc | packages/relay/src/registry.ts:95-104 | settles its owner's call as answered on that connection and tells the other cases apart |
| Registry.Relay.OnTimeout | packages/relay/src/registry.ts:79-82 | the timer settles its call as timed out |
| ShareTable.ValidExactlyWhenWellFormed | packages/relay/src/hub.ts:488-517 | a payload passes exactly when every entry is well formed and no share is named twice |
| ShareTable.AcceptedExactly | packages/relay/src/hub.ts:468-537 | an update is accepted exactly when a node sends at most 256 entries, each with a share of 1 to 64 letters, digits, dots, underscores and hyphens, a path and at most 4096 characters of instructions, no share named twice and none that another executor of the user has |
| ShareTable.EntryRefused | packages/relay/src/hub.ts:488-513 | which of the refusals an entry gets: share or path missing, then a bad share, a bad path, bad or too long instructions |
| ShareTable.FirstFault | packages/relay/src/hub.ts:488-517 | a refused list is refused for its first entry with a fault, of its own or for naming a share named before |
| ShareTable.ShareStaysUnique | packages/relay/src/hub.ts:527-561 | over every run of updates a user has one row per share, and an executor's rows are its user's |
| ShareTable.ApplyKeepsUnique | packages/relay/src/hub.ts:527-561 | so does each update |
| ShareTable.UpdateReplacesExactly | packages/relay/src/hub.ts:487-575 | an accepted update leaves the sender with exactly one row for each entry, with its share, its path and its sanitized instructions; a rejected one changes nothing, and no one else's rows change |
| ShareTable.UpsertReplaces | packages/relay/src/hub.ts:538-552 | with no conflict an upsert puts its row in place of whatever had its key |
| ShareTable.WrittenThenDeleted | packages/relay/src/hub.ts:538-561 | upserting the payload and deleting the rest replaces the sender's rows |
| ShareTable.Shares.Validate | packages/relay/src/hub.ts:488-517 | the validating loop finds the first thing wrong |
| ShareTable.Shares.FindConflict | packages/relay/src/hub.ts:527-537 | finds the first share another executor of the user has |
| ShareTable.Shares.HandleConfigUpdate | packages/relay/src/hub.ts:468-575 | the handler's checks and writes are the specified update, with the specified rejection |
| ShareTable.HubShares.HandleHubShareSync | packages/relay/src/hub.ts:690-811 | a hub's rows become the last entry of each name and no other, other hubs' stay; a refused message changes nothing |
| RateLimiter.AnswersAgree | packages/relay/src/router.ts:110-124 | with any pruning in between, the trimmed window answers as the limiter that remembers every call, so it refuses only when the window holds the limit |
| RateLimiter.AllowedExactly | packages/relay/src/router.ts:110-124 | a call is allowed exactly when fewer calls of its key than the limit were answered yes in the minute that ends with it |
| RateLimiter.StoredStaysShort | packages/relay/src/router.ts:105-124 | what is stored stays sorted and no longer than the limit |
| RateLimiter.MinuteHoldsAtMostLimit | packages/relay/src/router.ts:105-124 | no minute, wherever it starts, has more than the limit of calls of a key that the limiter answered yes |
| RateLimiter.LiveIsRecent | packages/relay/src/router.ts:113-116 | dropping expired times at the front drops exactly the expired ones |
| RateLimiter.ClockRunningBackwards | packages/relay/src/router.ts:113-123 | a clock that runs backwards leaves a window out of order |
| RateLimiter.ClockMustNotRunBackwards | packages/relay/src/router.ts:113-123 | a run from nothing stored in which the limiter refuses a call that the one with the full history allows, the clock having run backwards |
| RateLimiter.Limiter.AllowInWindow | packages/relay/src/router.ts:110-124 | the loop over the front of the window decides and stores as specified |
| RateLimiter.Limiter.PruneRateLimits | packages/relay/src/router.ts:310-318 | pruning keeps each key's recent times and drops keys with none |
| TreeCopy.MoveKeepsAllButSymlinks | packages/shared/src/executor/tools/fs-write.ts:139-161 | a completed cross-device move keeps everything exactly when the source has no symlink |
| TreeCopy.NothingCopied | packages/shared/src/executor/tools/fs-write.ts:203-208 | a completed move onto a dangling symlink keeps the source's files exactly when the source is not a regular file |
| CopySteps.EndsExactlyWhenOutside | packages/shared/src/executor/tools/fs-write.ts:193-209 | call by call, a copy to a free place ends exactly when it does not copy a directory into itself, in whatever order entries are listed, and then has made a copy; a copy into itself has calls to make after any number of them |
| TreeCopy.IntactWhileCopying | packages/shared/src/executor/tools/fs-write.ts:139-161 | while only the destination changes, every source file is intact at the source |
| TreeCopy.IntactWhileRemoving | packages/shared/src/executor/tools/fs-write.ts:139-161 | while the source is removed after a copy, every source file is intact at the destination |
| TreeDisk.Disk.CopyRecursive | packages/shared/src/executor/tools/fs-write.ts:193-209 | completes exactly when the source exists, no directory goes onto a symlink, and the disk is good for one operation per node that is no symlink; then a free destination has the source's tree without symlinks; never touches anything else, on success or failure |
| TreeDisk.Disk.CopyEntries | packages/shared/src/executor/tools/fs-write.ts:197-199 | the loop over a directory's entries copies each of them, exactly when the disk is good for all |
| TreeDisk.Disk.RemoveTree | packages/shared/src/executor/tools/fs-write.ts:152-153 | removes the tree and nothing else, exactly when it exists and the disk is good for one operation per node; a failure leaves part of it |
| TreeDisk.Disk.CrossDeviceMove | packages/shared/src/executor/tools/fs-write.ts:139-161 | completes exactly when copy and removal do; in every state on the way, at every point of failure, each regular file of the source is intact at the source or a free destination |
| TreeDisk.Disk.CopyPath | packages/shared/src/executor/tools/fs-write.ts:173-183 | which refusal or failure it reports, and when it reports success; then the destination is the source without symlinks exactly when it was free, and onto a dangling symlink nothing has changed; nothing else changes but for created parents |
| TreeDisk.Disk.MovePath | packages/shared/src/executor/tools/fs-write.ts:118-130 | the same for a move to another file system, with every file intact on the way to a free destination |
| TreeDisk.CopyOntoDanglingLink | packages/shared/src/executor/tools/fs-write.ts:203-208 | a copy of a file onto a dangling symlink that reports success and leaves the tree as it was |
| TreeDisk.MoveOntoDanglingLink | packages/shared/src/executor/tools/fs-write.ts:139-161 | a move of a file onto one that reports success and leaves no file |
| SequentialEdit.CountOccurrences | packages/shared/src/executor/tools/fs-edit.ts:83-92 | the loop counts matches each of which starts after the last one ended |
| SequentialEdit.MatchesAreDisjoint | packages/shared/src/executor/tools/fs-edit.ts:83-92 | those matches are occurrences that do not overlap |
| SequentialEdit.CountIsMaximal | packages/shared/src/executor/tools/fs-edit.ts:83-92 | no list of occurrences that do not overlap is longer |
| SequentialEdit.CountOne | packages/shared/src/executor/tools/fs-edit.ts:83-92 | the count is one exactly when the text occurs and every occurrence overlaps the first |
| SequentialEdit.CountZero | packages/shared/src/executor/tools/fs-edit.ts:83-92 | it is zero exactly when the text is empty or does not occur |
| SequentialEdit.OneMeansOnceExactlyWhenBorderless | packages/shared/src/executor/tools/fs-edit.ts:83-92 | a count of one means one occurrence, in every content, exactly when the text has no border, that is, does not begin the way it ends |
| SequentialEdit.ApplyEdits | packages/shared/src/executor/tools/fs-edit.ts:39-55 | the loop is a fold in which each edit must apply to what its predecessors left, and reports the first that does not |
| SequentialEdit.FailureIsDetermined | packages/shared/src/executor/tools/fs-edit.ts:39-55 | only one edit is the first to fail, and then not all apply |
| SequentialEdit.AppliedEditIsLocal | packages/shared/src/executor/tools/fs-edit.ts:54 | an edit that applies keeps everything around the one text it replaces |
| SequentialEdit.EditedFile.EditFile | packages/shared/src/executor/tools/fs-edit.ts:30-81 | succeeds exactly when every edit applies and it is a dry run or the result is not too large and the write works; each error has its exact condition, and one that names an edit names the first that fails: no match when its text is empty or does not occur, ambiguous with the most disjoint occurrences there are when there are two or more; the file is written only on success, and emptied by a write that fails |
| EnvFile.RoundTripExactlyWhenPlain | packages/shared/src/env-file.ts:31-74 | a value survives write and read exactly when it has no line separator, outer white space or surrounding quotes |
| EnvFile.ReadBack | packages/shared/src/env-file.ts:31-74 | what is read after any write |
| EnvFile.OneAssignmentRemains | packages/shared/src/env-file.ts:44-53 | one assignment of the name is left, and the other lines keep content and order |
| EnvFile.OtherKeysReadTheSame | packages/shared/src/env-file.ts:31-74 | every other name reads as before |
| EnvFile.LoaderAgrees | packages/hub/src/index.ts:79-91 | the first-wins loader gives a name that is not set the value written, and agrees with the last-wins reader exactly when it has no line separator |
| EnvFile.File.WriteEnvFileValue | packages/shared/src/env-file.ts:31-54 | the loop with its flag writes the specified lines; a bad name or value is refused |
| EnvFile.File.ReadEnvFileValue | packages/shared/src/env-file.ts:58-74 | the loop keeps the last value |
| EnvFile.File.SourceEnvFile | packages/hub/src/index.ts:60-92 | the loader's loop sets what is not set |
| EnvText.AssignsOneKey | packages/shared/src/env-file.ts:44 | a line assigns one name at most |
| EnvText.LoaderReadsAssignment | packages/hub/src/index.ts:79-91 | a line the writer takes for an assignment is one for the loader, with the same value |
| EnvText.LoadedIsAssigned | packages/hub/src/index.ts:79-91 | and the other way round |
| EnvText.SplitJoin | packages/shared/src/env-file.ts:37-53 | lines joined are split into the same lines |
| DevicePoll.Poller.PollDeviceToken | packages/shared/src/asterism-client.ts:288-339 | polling ends whatever the server and the clock do; no poll is sent at or after the deadline, each comes an interval after the last, and the outcome is that of the last reply or the deadline |
| DevicePoll.PollsAgain | packages/shared/src/asterism-client.ts:297-335 | there is another poll only after pending, slow_down, a transient status or a network error; only slow_down changes the interval, by 5 seconds up to a minute; and none is sent once the code has expired, or an hour after the start |
| DevicePoll.EndsAsAnswered | packages/shared/src/asterism-client.ts:306-335 | tokens sign in, an expired code is reported as that, and every other answer that does not ask for another poll as it is |
| DevicePoll.IntervalGrows | packages/shared/src/asterism-client.ts:327-329 | the interval never decreases and stays within 1 to 60 seconds |
| DevicePoll.FewerPollsThanIntervals | packages/shared/src/asterism-client.ts:297-302 | there are fewer polls than first intervals in the code's lifetime, and never 3600 |
| DevicePoll.ClampPollInterval | packages/shared/src/asterism-client.ts:243-246 | the server's interval where it is within 1 to 60 seconds, the nearer bound where it is not, 5 seconds for no number |

## Left out

- Routes, middleware, tool registration, the database library, sockets, child processes, HTTP and the RE2 engine, but for the abstract events and the regular-expression subset above.
- User interfaces, command wiring, service installers, logging, audit output, hashing and randomness.
- Path resolution by the kernel: real paths, symlink swaps between a check and a use, `O_NOFOLLOW`; where a link leads is a parameter.
- Permission evaluation, host names, configuration parsing, text sanitizing, backoff and route classification.
- `readFile` ranges: the streamed and the in-memory reader count lines differently on purpose.
- Characters are code points here; where the source counts UTF-16 code units (string lengths, `[i]`), a character outside the basic plane counts once.
- The RE2 subset is what globs emit: literals, escapes, `.`, classes with ranges, groups, alternation, `*`, `?` and the two anchors.
- The RE2 subset takes every `[:` at the start of a class member for a named class; RE2 itself looks for the closing `:]` first. What a whole glob means to RE2 when one of its classes is not plain is covered by the counterexample `EmptyClassSwallows` alone; the condition of `SourcePreservesMeaning` is sufficient, and a glob may keep its language without meeting it.
- The listing and the find show absolute paths: `relative()` is left out of them, and a parameter of the search. A search's hits come as one list instead of one list per file.
- The relay's await points inside a rotation step, and closing a socket as anything but the end of delivery on it.
- `max_concurrent_subnodes` is checked when a user's subnode is made, as in the code; no bound on the number of subnodes is claimed, because the lock's callback puts its subnode back without a check.
- The pool's escalation from SIGTERM to SIGKILL, and the wait of the shutdown for requests in flight: its end is the event `ForceKill`.
- The relay's limit on how often one token may reconnect (`checkReconnectRateLimit`): a reconnect that it refuses is one that happens later.
- Filters given as regular expressions are stored as they are; what RE2 makes of them is not part of this model.
- The permission blobs of `hub_share_sync` are taken as well formed.
- Renaming within one file system is the operating system's atomic rename and is not modelled.
- SubnodePools.SubnodePool: workers and subnodes are values in the object's maps, not objects of their own, so aliasing between them is not captured.
- RotationMachines.Relay: pruning orphaned tokens and a restart are steps of the protocol without a method of their own.
- Registry.Relay.RejectPendingRpcsForExecutor: the order in which the calls of one executor are rejected is not stated, because each is settled on its own.
- ShareTable.HubShares.HandleHubShareSync: does not check the shape of entries, because that is a chain of independent tests.
- FileLock.MutualExclusion: is stated for two processes, because it is false for three.
- TreeDisk.Disk.CopyPath: takes a source that is no directory above its destination, because the copy to a free place does not end otherwise.
- TreeDisk.Disk.MovePath: takes a source that is not above its destination, as CopyPath does, and that exists, because the rename that comes first reports a missing one before anything is copied.
