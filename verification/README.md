# Verification of the hub's concurrent and parsing core

A Dafny 4.11 model of the parts of the hub and its web client whose correctness
rests on interleavings, on identity across renames, or on exact framing.  Objects
that the original updates in place are classes here, and their methods are proved
against functions on the values of their fields.  Protocols are state machines
over those functions: each mutex section, transaction or system call is one step,
any number of participants interleave, and the results hold in every reachable
state.  `dafny verify dfyconfig.toml` checks the project.

| files | what they model |
|---|---|
| PathConflict, WaitGraph, PathLocks, StaleWaits | the hierarchical path-lock coordinator |
| PosixPath, RemotePaths, StagingCleanup | remote staging files, the active set, and the cleanup of leftovers |
| HostStore, Registry, HostEdits | the host table with its watermarks, every history of edits, and what an edit stores |
| Tickets, TerminalManager, Connections, HubHandlers | tickets, attachments, and the handlers that use them, one at a time |
| EpochFence, HostLifecycle, HandlerRuns | edits, tickets and attachments running at once, and the handlers as runs of their steps |
| OutputBuffers, TerminalPipeline | terminal output from process to peer |
| AtomicWrite | the optimistic atomic write of a local file |
| TextScan, Utf8 | telling text from binary in pieces |
| PathChanges, TreeCache, PathCovers | the browser's change log and listing cache |
| PathShape, SymlinkTree, Guard, OverlookedLink | the shape of paths, and their authorization in a tree with symbolic links |
| SftpName, SftpTruncation, Panes, ShellQuoting | SFTP name replies, whole and cut short, tmux pane listings, shell quoting |

Five results say where the code does less than its comments promise, or only under
a condition.  The code is followed, the condition is exact, and a lemma gives an
input or a run that fails it:

- `PathLocks.RefusalIsDeadlock`, `StaleWaits.RefusedWithoutDeadlock`: a waiter refused on
  its recheck keeps its edge, and a request can be refused as a deadlock because of it
  although the owner in its way is running (remote_files.go:205-223).
- `TerminalPipeline.ExitFollowsOutput`, `TerminalPipeline.OutputMayBeUnflushed`: the end
  of output does not take the mutex the flush holds, so a process that ends before its
  flush has finished can have its exit frame sent before its output
  (attachment.go:131-138, 197-228).
- `AtomicWrite.CommitReplacesWhatWasOpened`, `AtomicWrite.LinkToTheOriginalIsReplaced`:
  the checks before a commit follow links, so a name that has become a link to the moved
  original passes them, and the rename replaces the link (service.go:879-923).
- `Guard.CreateResolution`, `OverlookedLink.LinkMayBeOverlooked`,
  `OverlookedLink.DeniedMayBeOverlooked`: the check for a dangling link hands the
  unresolved ancestor to the kernel, and any failure of that look-up counts as "no link",
  be it for too many links, for a path too long, or for a directory that may not be
  searched (guard.go:282-306).
- `SftpTruncation.TruncationGivesPrefix`, `SftpTruncation.InventedEntry`: a reply cut
  inside an extended block is parsed on from where the block was cut, and may so yield an
  entry that no server listed (sftp_adapter.go:534-561).

`PathChanges.ClearForgets` and `PathChanges.ClearMayMislead` say what clearing the log does
to a read that still travels, which the original rules out (pathChanges.ts:119-121).

## Model

| member | source | states |
|---|---|---|
| PathLocks.DeadlockFreedom | hub/internal/host/remote_files.go:155-234 | in every reachable state the recorded edges lead from a sleeping waiter, through sleeping waiters only, to an owner that holds a path and is running or has been woken |
| PathLocks.WaitMapAcyclic | hub/internal/host/remote_files.go:166-175 | in every reachable state the wait map, stale edges included, has no cycle |
| PathLocks.Exclusion | hub/internal/host/remote_files.go:139-203 | in every reachable state entries of different owners never conflict, and the active entries are exactly the multiset acquired and not yet released |
| PathLocks.ExactRelease | hub/internal/host/remote_files.go:184-202 | in every reachable state a release takes away exactly its own acquisition and leaves every other entry, re-entrant ones included, in order |
| PathLocks.ReleaseWakesAll | hub/internal/host/remote_files.go:199-200 | a release wakes every waiter, whatever it waits for |
| PathLocks.RefusalHasALoop | hub/internal/host/remote_files.go:205-219 | a refused request conflicts with an owner whose recorded edges, left-over ones included, lead back to the requester |
| PathLocks.RefusalIsDeadlock | hub/internal/host/remote_files.go:155-234 | in every reachable state the walk that refuses a request follows live waits only, so that the refusal is a deadlock, if and only if none of its edges was left behind by an earlier refusal and none belongs to a woken waiter whose owner has released what it waits for |
| StaleWaits.RefusedWithoutDeadlock | hub/internal/host/remote_files.go:205-219 | a run in which a handle that holds nothing is refused as a deadlock, while the owner in its way is running and waits for nobody |
| PathLocks.Chase | hub/internal/host/remote_files.go:155-234 | the walk behind deadlock freedom: it never meets a handle twice |
| PathLocks.FirstConflictMeaning | hub/internal/host/remote_files.go:155-164 | no conflict is reported if and only if no other owner holds a conflicting path, whatever the requester holds; a reported owner is another one, and its entry the oldest in the way of the first path that meets any |
| PathLocks.GrantedMeaning | hub/internal/host/remote_files.go:120-164 | a lock is granted at once if and only if no other owner conflicts, so a handle never conflicts with itself, and its entries are added behind the others |
| PathLocks.ReleaseIsExact | hub/internal/host/remote_files.go:184-202 | the removal loop subtracts the acquisition as a multiset of entries |
| PathLocks.ReleaseKeepsOrder | hub/internal/host/remote_files.go:190-198 | the removal loop keeps the order of every entry it may not remove |
| PathLocks.RemoveOwnCount | hub/internal/host/remote_files.go:190-198 | per entry, how many copies the removal loop leaves |
| PathLocks.StepKeepsInv | hub/internal/host/remote_files.go:177-234 | each critical section, in any order, keeps the invariant the results above rest on |
| PathLocks.PathCoordinator.NewHandle | hub/internal/host/remote_files.go:131-137 | a handle gets the next identifier |
| PathLocks.PathCoordinator.FindConflict | hub/internal/host/remote_files.go:155-164 | the nested loops return the first conflicting owner |
| PathLocks.PathCoordinator.CheckDeadlock | hub/internal/host/remote_files.go:166-175 | the edge walk ends and reports a deadlock if and only if the owner leads back to the requester |
| PathLocks.PathCoordinator.TryLock | hub/internal/host/remote_files.go:205-223 | one pass of Lock: its verdict, the whole new state, and an acyclic wait map |
| PathLocks.PathCoordinator.Cancel | hub/internal/host/remote_files.go:226-230 | a cancelled waiter takes its edge away |
| PathLocks.PathCoordinator.Release | hub/internal/host/remote_files.go:184-202 | the unlock function against the specified removal |
| PathConflict.ConflictIsAncestry | hub/internal/host/remote_files.go:139-153 | on cleaned absolute paths the string test is exactly "one segment list is a prefix of the other" |
| PathConflict.SegmentsOfCleaned | hub/internal/host/remote_files.go:139-153 | a cleaned path is its segments, each after a separator |
| PathConflict.BodyPrefix | hub/internal/host/remote_files.go:146-151 | prefix of spellings with a separator is proper prefix of segment lists |
| WaitGraph.AcyclicAfterEdge | hub/internal/host/remote_files.go:166-221 | an edge to an owner that does not lead back to its source closes no cycle |
| WaitGraph.AcyclicAfterRemove | hub/internal/host/remote_files.go:177-229 | taking an edge away closes no cycle |
| StagingCleanup.CleanupSparesInFlight | hub/internal/host/remote_files.go:1263-1292 | in every interleaving, what a cleanup run is about to remove belongs to no Write in flight |
| StagingCleanup.StagingFileSurvives | hub/internal/host/remote_files.go:793-818 | in every interleaving, the staging file of a Write in flight is there |
| StagingCleanup.LeftoverIsFindable | hub/internal/host/store.go:821-867 | a staging file left behind after it was recorded has its record in the table, unless the bound of fifty evicted it or its path has a shape that a cleanup run gives up on |
| StagingCleanup.MadeIsIdentifiable | hub/internal/host/remote_files.go:772-774 | a staging name made from any sixteen-digit hexadecimal token, in any directory, passes the check a cleanup run makes before removing |
| StagingCleanup.IdentifiableMeaning | hub/internal/host/remote_files.go:1179-1191 | a path that passes that check ends in the staging prefix and sixteen hexadecimal digits as its whole last element |
| StagingCleanup.WriteCleansUp | hub/internal/host/remote_files.go:793-824 | a Write ends with its record dropped and its staging file gone, unless it failed and could not remove the file, whose record then stays |
| StagingCleanup.ActiveIsExact | hub/internal/host/remote_files.go:78-96 | in every interleaving a path is active exactly from the moment its Write tracks it until the Write forgets it |
| StagingCleanup.SnapshotKeepsInv | hub/internal/host/remote_files.go:1267-1278 | listing the records before taking the snapshot of the active set is what keeps a Write in flight off the list |
| StagingCleanup.StepKeepsInv | hub/internal/host/remote_files.go:763-1292 | every step of a Write, a cleanup run or another program keeps the invariant |
| StagingCleanup.ActiveStaging.Track | hub/internal/host/remote_files.go:78-85 | the path joins the active set of its host and no other |
| StagingCleanup.ActiveStaging.Untrack | hub/internal/host/remote_files.go:87-96 | the path leaves the active set of its host, and an empty set its map |
| StagingCleanup.ActiveStaging.Snapshot | hub/internal/host/remote_files.go:115-123 | the snapshot is the active set of the host |
| PosixPath.BaseShape | hub/internal/host/remote_files.go:1180-1191 | a base name is never empty and holds no separator, except for the root |
| PosixPath.BaseOfChild | hub/internal/host/remote_files.go:772-774 | a separator-free name joined to any directory is its own base, so the hub recognizes what it made |
| RemotePaths.ShapeMeaning | hub/internal/host/remote_paths.go:29-61 | a remote path is refused as invalid exactly if it is empty, relative, too long or has a dot-dot segment, and otherwise as not allowed exactly if its first cleaned name is a kernel interface in any case |
| RemotePaths.ValidateRemotePathShape | hub/internal/host/remote_paths.go:29-49 | the checks in order, with the loop over the segments, against that specification |
| Registry.NoRevisionReuse | hub/internal/host/registry.go:325-520 | over every history of create, edit, remove and re-create, records with one identifier and connection revision agree on the whole connection configuration, and records with one revision are equal |
| Registry.EditBumpsConnection | hub/internal/host/registry.go:469-520 | an accepted edit changes the connection revision whenever the configuration changes, and otherwise only if secrets were supplied |
| Registry.RegistryShape | hub/internal/host/store.go:554-613 | at most one host is local and the default host is registered, over every history |
| Registry.SavedIsNext | hub/internal/host/registry.go:325-520 | whatever Save accepts is the next revision of its host, with the old connection revision and configuration or a connection revision above all before |
| Registry.CommitKeepsInv | hub/internal/host/registry.go:251-268 | every save, removal or change of the default keeps the registry invariant |
| Registry.HostRegistry.SaveNew | hub/internal/host/registry.go:325-393 | creation against its specification, refusals included |
| Registry.HostRegistry.SaveUpdate | hub/internal/host/registry.go:395-520 | update against its specification, refusals included |
| Registry.HostRegistry.SaveUpdateSsh | hub/internal/host/registry.go:469-520 | the fields an SSH edit keeps or replaces, step by step, against their specification |
| Registry.HostRegistry.ResolveCredentialUpdate | hub/internal/host/registry.go:437-459 | credential type and sealed credential, or the refusal |
| HostEdits.EditStoresWhatIsGiven | hub/internal/host/registry.go:437-520 | an accepted edit stores, field by field, what is given where something is given and what there was otherwise; the host key is the given one, none if the endpoint moved without one, and else the old one |
| HostEdits.CreationStoresWhatIsGiven | hub/internal/host/registry.go:325-393 | an accepted creation stores what is given, with the kind meant and port 22 where nothing is said |
| HostEdits.EditAccepted | hub/internal/host/registry.go:395-520 | an edit is accepted if and only if the host is still at the expected revision, keeps its kind, and what is given fits the kind |
| HostEdits.CreationAccepted | hub/internal/host/registry.go:325-393 | a creation is accepted if and only if the identifier is valid and free, a local host would be the only one, and what is given fits the kind |
| HostEdits.SaveStores | hub/internal/host/registry.go:523-543 | an accepted save stores its record under its identifier, at the next revision and with the trimmed name, and touches no other host and no setting |
| HostEdits.LocalStaysBlank | hub/internal/host/registry.go:417-431 | an edit of the local host changes its name alone |
| HostEdits.TrimMeaning | hub/internal/host/registry.go:523-543 | trimming takes white space off both ends and nothing else |
| Registry.HostRegistry.Save | hub/internal/host/registry.go:523-543 | the checks common to both, then one of them |
| Registry.HostRegistry.Remove | hub/internal/host/registry.go:251-268 | removal under an expected revision, or any if none is expected |
| HostStore.Store.Put | hub/internal/host/store.go:538-644 | a Put stores under the expected revision, one local host at most, and raises the watermark |
| HostEdits.OneEditPerRevision | hub/internal/host/store.go:538-644 | of two edits that expect the same revision at most one is stored |
| HostStore.Store.Delete | hub/internal/host/store.go:646-699 | a Delete removes under the expected revision, keeps the watermark and clears the default |
| HostEdits.RemovalAccepted | hub/internal/host/registry.go:251-268 | a removal is accepted if and only if the host is registered and at the expected revision, if one is expected; the host is gone, its watermark stays and no default names it |
| HostEdits.DefaultAccepted | hub/internal/host/store.go:730-796 | the default host may be set to a registered host or cleared if and only if the settings are at the expected revision, and the next change must expect another |
| HostStore.Store.CountLocal | hub/internal/host/store.go:602-613 | the count is positive if and only if a local host is stored |
| HostStore.Store.Watermarked | hub/internal/host/store.go:581-590 | the watermark of the identifier becomes the larger of old and new in each component |
| HostLifecycle.EpochFenceHolds | hub/internal/terminal/manager.go:49-92 | in every interleaving, once the CloseHost after a committed change has returned, every attachment still tracked for that host was resolved after that commit |
| HostLifecycle.QuiescentAttachmentsAreCurrent | hub/internal/transport/ws/handler.go:146-219 | when no change of a host is still being followed up, whoever is attached was connected with the configuration now stored, and the host exists |
| HostLifecycle.TicketKeepsItsConfiguration | hub/internal/auth/tickets.go:85-117 | whoever is let in attaches with exactly the connection configuration the ticket was issued for, as resolved and as read again when the process dials, to the session it was issued for and before it expires, and no ticket is redeemed twice |
| HostLifecycle.ResolvedUnderItsOwnName | hub/internal/transport/ws/handler.go:153-158 | the second read of an epoch, after resolving, never happens |
| HostLifecycle.ChangeIsNoticed | hub/internal/transport/http/router.go:493-503 | a committed connection change always differs from the connection revision the handler had read, however stale, so the callbacks run |
| HostLifecycle.RedeemKeepsTokens | hub/internal/transport/ws/handler.go:222-231 | an accepted ticket is bound to the resolved host and connection revision and is gone from the table |
| HostLifecycle.DialedIsTarget | hub/internal/host/connection.go:275-297 | the record read again when dialling has the connection revision that was resolved |
| HostLifecycle.CreateKeeps | hub/internal/transport/http/router.go:385-450 | creating a host needs no invalidation: no target of it is younger than its removal |
| HostLifecycle.StepKeepsInv | hub/internal/app/app.go:317-326 | every step of administrators, ticket requests and attach requests keeps the invariant |
| EpochFence.FenceHolds | hub/internal/terminal/manager.go:49-92 | a tracked attachment of a fenced host read its epoch after the change the fence follows |
| EpochFence.BumpKeeps | hub/internal/terminal/manager.go:78-92 | bumping the epoch and listing who is attached under one lock leaves nobody below the fence unlisted |
| EpochFence.FrameKeeps | hub/internal/terminal/manager.go:49-92 | a step that changes no epoch, raises no fence, keeps those already up and tracks nobody new keeps the invariant |
| EpochFence.RegisterKeeps | hub/internal/terminal/manager.go:49-60 | registration admits nobody whose epoch is behind |
| TerminalManager.TerminalManager.CurrentEpoch | hub/internal/terminal/manager.go:40-44 | an unknown host has epoch zero |
| TerminalManager.TerminalManager.Register | hub/internal/terminal/manager.go:49-60 | the three outcomes of registration and the new set |
| TerminalManager.RegistrationMeaning | hub/internal/terminal/manager.go:49-60 | an attachment is registered if and only if shutdown has not begun and it has no host or read the present epoch of its host |
| TerminalManager.BumpShutsOut | hub/internal/terminal/manager.go:49-87 | a bump shuts out whoever read the epoch of that host before, and nobody else |
| TerminalManager.TerminalManager.Untrack | hub/internal/terminal/manager.go:63-67 | the attachment leaves the set |
| TerminalManager.TerminalManager.BumpAndList | hub/internal/terminal/manager.go:78-87 | the epoch goes up by one and the list is exactly the attachments of the host |
| TerminalManager.TerminalManager.CloseHost | hub/internal/terminal/manager.go:78-92 | with nobody else at work, no attachment of the host is left and the others stay |
| TerminalManager.TerminalManager.BeginShutdown | hub/internal/terminal/manager.go:95-102 | nothing registers from here on, and everyone tracked is listed |
| Tickets.TicketStore.IssueForTarget | hub/internal/auth/tickets.go:53-76 | a ticket records host, connection revision, session and expiry, with the defaults for unset values |
| Tickets.TicketStore.RedeemForTarget | hub/internal/auth/tickets.go:85-117 | the verdict in the order of the checks, and the ticket is used up whatever it is |
| Tickets.IssuedIsGoodFor | hub/internal/auth/tickets.go:53-117 | a ticket just issued is accepted if and only if host and connection revision agree after defaults, the session is the one it was issued for and the moment is not past its expiry; other tickets are as good as before |
| Tickets.GoodOnce | hub/internal/auth/tickets.go:85-117 | whatever the first answer was, the second is that there is no such ticket |
| Tickets.TicketStore.Sweep | hub/internal/auth/tickets.go:120-129 | exactly the expired tickets go |
| Tickets.SweepSparesTheGood | hub/internal/auth/tickets.go:120-129 | a sweep takes no ticket that could still be redeemed and leaves none that is too old |
| Tickets.TicketStore.InvalidateHost | hub/internal/auth/tickets.go:132-140 | exactly the tickets of the host go |
| Tickets.InvalidatedHostIsRefused | hub/internal/auth/tickets.go:132-140 | afterwards exactly the redemptions for other hosts are accepted that were before |
| Tickets.TicketStore.InvalidateConnection | hub/internal/auth/tickets.go:143-151 | exactly the tickets of the host up to the revision go |
| Tickets.InvalidatedConnectionIsRefused | hub/internal/auth/tickets.go:143-151 | afterwards exactly the redemptions for other hosts or later revisions are accepted that were before |
| HubHandlers.Hub.ConnectionChanged | hub/internal/app/app.go:317-326 | the whole state afterwards: the pool of the host is revoked and dropped and no other pool, its tickets go, its epoch goes up and its attachments are closed |
| HubHandlers.Hub.UpdateHost | hub/internal/transport/http/router.go:453-510 | with the hub to itself, a refused update changes nothing, and an accepted one invalidates tickets and attachments if and only if the connection revision changed |
| HubHandlers.UpdatedMeaning | hub/internal/transport/http/router.go:453-510 | an update is answered with the stored record if and only if it is accepted; tickets, attachments and pool go if the connection revision changed and stay otherwise; a refusal changes nothing |
| HubHandlers.Hub.DeleteHost | hub/internal/transport/http/router.go:512-543 | with the hub to itself, a removed host loses its tickets and attachments, and a refused removal changes nothing |
| HubHandlers.Hub.IssueTicket | hub/internal/transport/http/router.go:283-321 | a ticket carries the identifier and connection revision resolved; an unknown host, and an unknown session of a known one, get none and change nothing |
| HubHandlers.Hub.ServeAttach | hub/internal/transport/ws/handler.go:140-231 | with the hub to itself, an attach is refused for its host, its origin, its upgrade, its ticket, tmux, its process or a shutdown, in that order, never for an epoch, and from the ticket on uses the ticket up |
| HubHandlers.AttachedMeaning | hub/internal/transport/ws/handler.go:140-231 | an attach is let in if and only if host, origin, upgrade, ticket, tmux, process and dial are good and the hub is not shutting down; else nobody is tracked, and the ticket is used up exactly if it was looked at |
| HubHandlers.DroppedIsGone | hub/internal/app/app.go:317-326 | after a host is invalidated it has no pool, no ticket and no attachment, its old pool is revoked, and whoever read its epoch before is refused registration; nothing of another host is touched |
| Connections.ConnectionManager.Invalidate | hub/internal/host/connection.go:635-645 | the pool of the host is dropped and revoked, if it has one, and no other |
| Connections.DialMeaning | hub/internal/host/connection.go:275-311 | an SSH host is dialled if and only if it is still registered as one, with the connection revision resolved, and its host key is pinned, and then with the record now stored |
| HandlerRuns.UpdateIsRun | hub/internal/transport/http/router.go:453-510 | an update of a registered host that states its revision, run alone, is a run of the steps of HostLifecycle: from any state they lead to the state the handler leaves |
| HandlerRuns.DeleteIsRun | hub/internal/transport/http/router.go:512-543 | so is an accepted removal of a host |
| HandlerRuns.IssueIsRun | hub/internal/transport/http/router.go:283-321 | so is the issuing of a ticket with a fresh token for a registered host and a known session |
| HandlerRuns.AttachIsRun | hub/internal/transport/ws/handler.go:140-231 | so is an attach request, whatever it meets, from every reachable state |
| TerminalPipeline.StreamFidelity | hub/internal/terminal/attachment.go:131-149 | in every interleaving, what was sent followed by what is on its way is what was read without a prefix of whole chunks, and nothing is evicted once ready |
| TerminalPipeline.MemoryBound | hub/internal/terminal/queue.go:43-61 | queued bytes plus a permitted read never exceed the larger of high - 1 and the staging capacity by more than a chunk, and staging never its capacity |
| TerminalPipeline.PauseDrains | hub/internal/terminal/queue.go:43-61 | between a pause and the next permitted read at least high - low + 1 bytes are popped |
| TerminalPipeline.WaitingMeansPoppable | hub/internal/terminal/queue.go:43-81 | back-pressure never stalls the pipe: where the reader is told to wait there is a chunk to pop, and below the low mark the next poll permits reading |
| TerminalPipeline.ExitFollowsOutput | hub/internal/terminal/attachment.go:197-228 | when the process ends over a sound connection, the exit frame is certain to follow all output read and not evicted if and only if nothing is still staged or being flushed |
| TerminalPipeline.OutputMayBeUnflushed | hub/internal/terminal/attachment.go:131-228 | a reachable state over a sound connection in which the process ends while its output is still staged |
| TerminalPipeline.ExitAfterFlush | hub/internal/terminal/attachment.go:131-228 | with the flush finished before the process ended, the exit frame follows all output read and not evicted |
| TerminalPipeline.WriterDrains | hub/internal/terminal/attachment.go:203-217 | from any closed queue with an exit code the writer can send everything queued and then the exit frame |
| TerminalPipeline.StepKeepsAccount | hub/internal/terminal/attachment.go:131-215 | every step keeps the account of where each chunk is |
| TerminalPipeline.StepKeepsBound | hub/internal/terminal/attachment.go:151-195 | every step keeps the byte bounds |
| TerminalPipeline.Attachment.Deliver | hub/internal/terminal/attachment.go:140-149 | a chunk is staged before the attachment is ready and queued after |
| TerminalPipeline.Attachment.MarkReadyAndFlush | hub/internal/terminal/attachment.go:131-138 | the flush moves all staged chunks, in order, behind those queued |
| OutputBuffers.EvictKeepsLongestTail | hub/internal/terminal/staging.go:36-40 | eviction keeps the longest run of newest chunks that leaves room |
| OutputBuffers.StagedFits | hub/internal/terminal/staging.go:29-47 | with chunks no larger than the capacity the buffer never exceeds it |
| OutputBuffers.StagingBuffer.Write | hub/internal/terminal/staging.go:29-47 | the eviction loop against its specification |
| OutputBuffers.StagingBuffer.Drain | hub/internal/terminal/staging.go:50-57 | everything comes out in order and the buffer is empty |
| OutputBuffers.OutputQueue.PushChunk | hub/internal/terminal/queue.go:30-39 | a non-empty chunk goes to the end, an empty one nowhere |
| OutputBuffers.OutputQueue.MayRead | hub/internal/terminal/queue.go:43-61 | the answers and the hysteresis of ShouldRead |
| OutputBuffers.MayReadMeaning | hub/internal/terminal/queue.go:43-61 | reading is permitted if and only if the queue is open and below its high mark, or below its low one while paused; it is paused from a refusal until the next permission |
| OutputBuffers.OutputQueue.TryPop | hub/internal/terminal/queue.go:64-81 | the first chunk, also after closing, or closed and drained, or a wait |
| OutputBuffers.PoppedInOrder | hub/internal/terminal/queue.go:30-81 | what is pushed is popped, oldest first, and nothing else |
| OutputBuffers.OutputQueue.CloseWithExit | hub/internal/terminal/queue.go:84-90 | closed, with the exit code |
| OutputBuffers.OutputQueue.CloseAbnormal | hub/internal/terminal/queue.go:93-98 | closed, with the exit code unchanged |
| OutputBuffers.ClosedMeaning | hub/internal/terminal/queue.go:43-98 | a closed queue is read into no more and keeps what it holds to be popped to the end; an abnormal close keeps the exit code there was |
| AtomicWrite.NoLostUpdate | hub/internal/files/service.go:783-868 | at a name only Writes touch, each commit started from the outcome of the commit before it, and no two commits, forced or not, started from the same state |
| AtomicWrite.CommitReplacesWhatWasOpened | hub/internal/files/service.go:901-928 | a commit takes a name still free, or replaces the very inode that was opened, with the observed time and link count still right, if and only if the name has not become a link |
| AtomicWrite.LinkToTheOriginalIsReplaced | hub/internal/files/service.go:916-923 | a run in which the original is renamed and its name made a link to it: every check passes and the link is replaced |
| AtomicWrite.CommitInstallsTheBody | hub/internal/files/service.go:964-983 | after a commit the name holds the whole staged body, of the declared length, and nothing else has changed |
| AtomicWrite.OpenMeaning | hub/internal/files/service.go:610-668 | a Write may begin if and only if the name is free and no time was observed there, or it holds a regular file as observed and under no other name unless that is agreed to; with the refusal in every other case |
| AtomicWrite.AcceptableMeaning | hub/internal/files/service.go:901-946 | an inode is refused for a changed time before it is refused for its other names |
| AtomicWrite.FailureLeavesNothing | hub/internal/files/service.go:783-868 | a Write that gives up changes no name but that of its staging file, which goes if it can be removed, and no inode |
| AtomicWrite.OnlyCommitIsVisible | hub/internal/files/service.go:783-868 | until it commits, and when it fails, a Write changes no other name and no other inode |
| AtomicWrite.RenameFinds | hub/internal/files/service.go:901-928 | what the last check finds: a free name, or the pinned inode under its number |
| AtomicWrite.PinsHoldKept | hub/internal/files/metadata.go:17-32 | while a Write holds its descriptor the inode number means the inode it opened, whatever is freed and created |
| AtomicWrite.ResultsGrow | hub/internal/files/service.go:783-868 | along the commits at an untouched name, what is installed is ever younger |
| AtomicWrite.StepKeepsInv | hub/internal/files/service.go:610-868 | every step of any Write or other program keeps the invariant |
| TextScan.LooksBinary | hub/internal/files/service.go:480-507 | for every way of reading the file in non-empty chunks the answer is true exactly when it holds a NUL or is not valid UTF-8 |
| Utf8.TextMeansEncoded | hub/internal/files/service.go:531-542 | what counts as text is exactly what encodes, by the arithmetic of section 3 of RFC 3629, a sequence of character numbers other than zero |
| Utf8.ValidMeansEncoded | hub/internal/files/service.go:540 | what counts as valid is exactly what encodes a sequence of character numbers, surrogates excluded |
| TextScan.Scan.DecidedBy | hub/internal/files/service.go:531-556 | a decision holds for every continuation of the bytes seen; otherwise they are text up to a tail held back |
| TextScan.CutLeavesPartial | hub/internal/files/service.go:548-584 | where valid UTF-8 is cut, at most three bytes are left, and they pass the test for a partial character |
| TextScan.NoSplitRefutes | hub/internal/files/service.go:543-555 | if no split within three bytes of the end works, no continuation is text |
| TextScan.HeldBackIsBinary | hub/internal/files/service.go:504-506 | at the end of the file the bytes are text if and only if nothing is held back |
| TextScan.ValidJoins | hub/internal/files/service.go:532-542 | valid UTF-8 followed by x is valid if and only if x is |
| PathChanges.ResolveFollowsTheFile | hub/web/src/files/pathChanges.ts:72-118 | for every run of renames, removals and creations, resolve gives the present path of the very file that was at the path when the read started, and nothing exactly if that file was removed |
| PathChanges.ClearForgets | hub/web/src/files/pathChanges.ts:119-121 | clearing the list while a read travels is harmless to it if and only if the file is still at the path where the read started, which is when the list would have answered that path |
| PathChanges.ClearMayMislead | hub/web/src/files/pathChanges.ts:119-121 | a run in which clearing the list sends a read to its old path, where there is nothing |
| PathChanges.StepLocates | hub/web/src/files/pathChanges.ts:96-118 | a recorded change says where its step took each file |
| PathCovers.RenameReplacesAncestor | hub/web/src/files/pathChanges.ts:111-115 | on cleaned paths a rename replaces the old name by the new one wherever it is an ancestor or the path itself, and leaves every other path |
| PathCovers.RemovalTakesAncestor | hub/web/src/files/pathChanges.ts:99-104 | on cleaned paths a removal takes exactly what has the path for an ancestor or is it |
| PathCovers.CoversIsAncestry | hub/web/src/files/pathChanges.ts:72-75 | on cleaned paths the string test is exactly ancestor-or-equal |
| PathChanges.RenameOnlyMoves | hub/web/src/files/pathChanges.ts:111-115 | every path after a rename is where it took a path before |
| PathChanges.TreeOkKept | hub/web/src/files/pathChanges.ts:86-118 | every step keeps the tree one in which no two paths name one file |
| PathChanges.Log.Record | hub/web/src/files/pathChanges.ts:87-89 | a rename is appended under the next generation |
| PathChanges.Log.RecordRemoval | hub/web/src/files/pathChanges.ts:90-92 | a removal is appended under the next generation |
| PathChanges.Log.Resolve | hub/web/src/files/pathChanges.ts:96-118 | the loop computes the path after the changes younger than the read |
| PathChanges.Log.Clear | hub/web/src/files/pathChanges.ts:119-121 | the list is empty and the generation stays |
| TreeCache.StoredIffFresh | hub/web/src/files/tree.ts:203-219 | in every run a listing is stored if and only if no later load, invalidation, forgetting or reset has covered its directory since it was requested and the tree still shows its host |
| TreeCache.NeverBackwards | hub/web/src/files/tree.ts:159-181 | of two listings stored for a directory the later one was requested later, whatever was dropped in between |
| TreeCache.CachedIsCurrent | hub/web/src/files/tree.ts:73-108 | a cached listing belongs to the host shown and was requested after every invalidation, forgetting and reset that covers it |
| TreeCache.TruncatedIsCached | hub/web/src/files/tree.ts:73-108 | in every run the mark that a listing is cut short goes with the listing |
| TreeCache.NewestIsFreshKept | hub/web/src/files/tree.ts:153-166 | a ticket is the newest of its directory exactly while nothing has covered it |
| TreeCache.TreeState.Reset | hub/web/src/files/tree.ts:39-46 | a reset leaves nothing cached and no wait accepted |
| TreeCache.TreeState.Issue | hub/web/src/files/tree.ts:153-157 | a wait gets a ticket above all before and becomes the newest of its directory |
| TreeCache.TreeState.InvalidateDirectory | hub/web/src/files/tree.ts:73-77 | one listing goes and its waits are superseded |
| TreeCache.TreeState.ForgetDirectory | hub/web/src/files/tree.ts:88-108 | every listing and wait at or beneath the directory goes, and only those |
| PathCovers.UnderIsAncestry | hub/web/src/files/tree.ts:88-90 | what counts as beneath a directory is exactly what has it for an ancestor, or is it |
| TreeCache.TreeState.BeginLoad | hub/web/src/files/tree.ts:183-203 | the cached listing, or a fresh ticket |
| TreeCache.TreeState.CompleteLoad | hub/web/src/files/tree.ts:204-220 | the listing is stored if host, revision and ticket match, and otherwise nothing changes |
| Guard.CreateResolution | hub/internal/files/guard.go:165-306 | whatever look-ups the kernel fails and why, a successful create resolution lies inside some root, is no kernel interface, is the resolved deepest existing ancestor with the missing names appended in order, and has a link above its last element if and only if a dangling link stands below that ancestor and the look-up of it failed |
| Guard.NoLinkAbove | hub/internal/files/guard.go:276-306 | if the kernel fails to look up none of the prefixes of the cleaned path, nothing above the last element of what is authorized is a link |
| Guard.ReadResolution | hub/internal/files/guard.go:165-199 | whatever look-ups the kernel fails, a successful read resolution lies inside some root, is no kernel interface, is where the path resolves, and is an entry that exists and is reached through no link |
| Guard.OutsideIsRefused | hub/internal/files/guard.go:176-187 | what resolves outside every root or to a kernel interface is not allowed, for reads as for creates and whether or not it exists |
| Guard.InsideIsGiven | hub/internal/files/guard.go:184-199 | what resolves inside is given to a create, and to a read if and only if the kernel finds it; a missing entry is not found |
| OverlookedLink.LinkMayBeOverlooked | hub/internal/files/guard.go:298-306 | for every number of links the kernel follows, up to two below the 255 of the walker, a tree and a path that is authorized through a dangling link |
| OverlookedLink.DeniedMayBeOverlooked | hub/internal/files/guard.go:298-306 | a tree with a directory the hub may not search, which the walker passes by with dot-dot, and a path that is authorized through a dangling link |
| Guard.LinksAboveMissing | hub/internal/files/guard.go:276-290 | what is appended to the ancestor meets a link if and only if there is one right below the ancestor and the look-up of it failed, for any reason |
| Guard.LookupFindsLink | hub/internal/files/guard.go:300-306 | where the look-up of the name below the ancestor does not fail, it finds the link that is there |
| Guard.MissingFound | hub/internal/files/guard.go:249-296 | the upward walk stops at the deepest existing ancestor |
| Guard.CanonicalMeaning | hub/internal/files/guard.go:234-296 | a canonical path is the whole path resolved, or its deepest existing ancestor resolved and the rest appended; it meets a link above its end if and only if one was overlooked |
| Guard.RelativeToMeaning | hub/internal/files/confine.go:363-375 | a path is inside a root if and only if the root is a prefix of its elements, and root joined to the relative path is the path |
| PathShape.BlockedIsFirstName | hub/internal/files/guard.go:315-323 | the test on the spelling is exactly one on the first name, whatever its case |
| PathShape.KernelNames | hub/internal/files/guard.go:315-323 | the names are those of the three interfaces in any mixture of cases |
| Guard.CanonicalizeMissing | hub/internal/files/guard.go:249-296 | the upward loop against its specification, under every way look-ups can fail |
| Guard.JoinMissing | hub/internal/files/guard.go:287-289 | the names collected last to first are appended first to last |
| Guard.RootSet.Close | hub/internal/files/guard.go:122-133 | a closed set keeps its roots and refuses |
| Guard.RootSet.ContainsPath | hub/internal/files/guard.go:202-209 | some root contains the path |
| Guard.RootSet.ResolvePath | hub/internal/files/guard.go:165-199 | every check in order, with its refusal |
| Guard.RootSet.Confine | hub/internal/files/confine.go:322-355 | the first root that contains the path, with root joined to relative path giving the path; refused if closed or outside every root |
| Guard.RootSet.ResolveAndConfine | hub/internal/files/service.go:613-617 | what resolves for a create is accepted by an open set, through a handle that leads back to it |
| SymlinkTree.WalkFindsPhysical | hub/internal/files/guard.go:235-238 | what the link walker finds exists and meets no link |
| SymlinkTree.FoundWhenCalm | hub/internal/files/guard.go:235-238 | what the walker finds in spite of failing look-ups is what it would find without them |
| SymlinkTree.PhysicalIsFixed | hub/internal/files/guard.go:235-238 | a resolved path resolves to itself |
| SymlinkTree.LinkIsItsText | hub/internal/files/guard.go:235-238 | a path through a link resolves to what its text resolves to in its place, from the root if the text is absolute and from where the link is otherwise |
| SymlinkTree.UpIsParent | hub/internal/files/guard.go:235-238 | dot-dot leads to the directory that holds what was resolved so far |
| SymlinkTree.SlashFindsDirectory | hub/internal/files/guard.go:235-238 | a path with a separator at its end is found only if it is a directory |
| SymlinkTree.PresentIsFound | hub/internal/files/guard.go:268-295 | a name present below a resolved ancestor, and no link, would have been found |
| SftpName.ReplyRoundTrip | hub/internal/host/sftp_adapter.go:411-561 | for every list of entries with any attribute flags and extended pairs, encoded by the draft, the parser gives exactly their projections |
| SftpTruncation.TruncationGivesPrefix | hub/internal/host/sftp_adapter.go:411-561 | for all entries and every cut, the truncated reply gives exactly the entries complete in it if and only if the cut does not lie in the extended block of an entry |
| SftpTruncation.CutInExtended | hub/internal/host/sftp_adapter.go:411-561 | for every other cut, j bytes into entry n: the entries up to n come out, and then whatever is parsed from what the cut leaves of the extended block |
| SftpTruncation.InventedEntry | hub/internal/host/sftp_adapter.go:411-561 | an entry the server never listed appears if and only if an entry was still to come and what is left of the cut block can be parsed as one, which it can only where it begins the name or the data of a pair |
| SftpTruncation.ExtendedAt | hub/internal/host/sftp_adapter.go:534-561 | those are exactly the cuts that TruncationGivesPrefix leaves out |
| SftpTruncation.SkipPairsCut | hub/internal/host/sftp_adapter.go:534-561 | what the skipping loop leaves of pairs cut anywhere |
| SftpTruncation.CutPairBecomesAnEntry | hub/internal/host/sftp_adapter.go:534-561 | for any entry at all, a pair whose name begins with its wire form, cut behind that, makes the parser list it after the entry that holds the pair |
| SftpName.NamesAreElements | hub/internal/host/sftp_adapter.go:503-504 | on arbitrary bytes every parsed name is one path element |
| SftpName.AttrsRoundTrip | hub/internal/host/sftp_adapter.go:455-511 | attributes in any combination are read back, sizes wrapped to 64 signed bits |
| SftpName.EntryMeaning | hub/internal/host/sftp_adapter.go:455-511 | kind, permissions, size and time of an entry in the terms of the server: the type bits, the nine permission bits, the second of the two times |
| SftpName.PermReadBack | hub/internal/host/sftp_adapter.go:513-532 | every file type and every permission is read back, whatever other bits are set |
| SftpName.SizeWraps | hub/internal/host/sftp_adapter.go:462-468 | a size is the same number modulo 2 to the 64, in 64 signed bits |
| SftpName.NumbersAreBigEndian | hub/internal/host/sftp_adapter.go:411-511 | numbers are read most significant byte first |
| SftpName.FlagsReadBack | hub/internal/host/sftp_adapter.go:459-501 | each flag is read back from the sum, whatever the others and the undefined bits are |
| SftpName.PairsRoundTrip | hub/internal/host/sftp_adapter.go:534-561 | skipping encoded pairs consumes exactly them |
| SftpTruncation.ItemCut | hub/internal/host/sftp_adapter.go:431-561 | a cut entry is malformed if and only if the cut comes before its extended block |
| SftpTruncation.AttrsCut | hub/internal/host/sftp_adapter.go:455-561 | cut attributes are malformed if and only if the cut comes before the extended block |
| SftpTruncation.ManyTruncated | hub/internal/host/sftp_adapter.go:419-426 | a cut list gives exactly its complete entries if and only if the entry it cuts is cut before its extended block |
| SftpName.ParseNameEntries | hub/internal/host/sftp_adapter.go:411-429 | the outer parser ends, stays in range, meets its specification on arbitrary bytes, and reserves room for as many entries as are announced |
| SftpName.EntriesFit | hub/internal/host/sftp_adapter.go:411-453 | whatever the bytes, no more entries come out than are announced, and no more than one for each twelve bytes |
| SftpName.ParseListed | hub/internal/host/sftp_adapter.go:419-426 | the loop over entries against its specification |
| SftpName.ParseSingleNameEntry | hub/internal/host/sftp_adapter.go:431-453 | one entry, or malformed |
| SftpName.ParseEntryAttrs | hub/internal/host/sftp_adapter.go:455-511 | the optional fields in order, or malformed |
| SftpName.SkipExtendedAttrs | hub/internal/host/sftp_adapter.go:534-561 | the skipping loop, stopping where a pair does not fit |
| Panes.PanesRoundTrip | hub/internal/tmux/panes.go:79-139 | for all panes with arbitrary field bytes, parsing the listing gives the panes back |
| Panes.TruncationGivesPrefix | hub/internal/tmux/panes.go:79-139 | parsing any truncation of a listing gives exactly the panes whose records are complete in it |
| Panes.FieldRoundTrip | hub/internal/tmux/panes.go:57-62 | a framed field is read back whatever its bytes and whatever follows |
| Panes.FieldsTruncated | hub/internal/tmux/panes.go:114-128 | a record cut before its end is never parsed as a record |
| Panes.AtoiDecimal | hub/internal/tmux/panes.go:143-149 | a decimal number is read back |
| Panes.AtoiSigned | hub/internal/tmux/panes.go:143-149 | a sign is read, and a number that does not fit is none |
| Panes.ParsePanes | hub/internal/tmux/panes.go:79-110 | the outer loop against its specification |
| Panes.ParsePaneRecord | hub/internal/tmux/panes.go:114-139 | nine fields and a line ending, or malformed |
| Panes.ParsePaneFields | hub/internal/tmux/panes.go:115-128 | the loop over the fields |
| ShellQuoting.QuotingRoundTrip | hub/internal/host/encoder.go:9-26 | a POSIX shell reads an encoded command back as exactly its arguments if and only if none of them holds a NUL |
| ShellQuoting.ReadsEscaped | hub/internal/host/encoder.go:13 | escaped text between quotes is read as the text |
| ShellQuoting.ReadsArg | hub/internal/host/encoder.go:9-14 | an encoded argument is read as one word |
| ShellQuoting.EncodeCommand | hub/internal/host/encoder.go:17-26 | the builder loop against its specification |

## Left out

- Lock's wait is a step of its own: TryLock is one pass between two waits, and the notify channel is the number of times it was replaced. Fairness and progress of the scheduler are not modelled.
- An unlock function is called once per acquisition; a second call, which the original does not guard against, is not modelled.
- A waiter records one edge, to the first conflicting owner, as in the original; whatever else is in its way is not part of the wait map.
- Handles, epochs, revisions and generations are unbounded numbers; the wrap-around of 64-bit counters is not modelled.
- Random tokens and staging names never repeat, and other programs leave names the hub invented alone. Ticket tokens are never drawn twice.
- A transaction of the database is one step. SQL, encryption, key files, the version-1 migration and directory locking are not part of this model; sealed credentials are opaque bytes.
- Resolving a host reads the registry once, and dialling an SSH host reads it again. The original reads it twice to resolve an SSH host; that it is replaced by a local one between the two is not modelled. The connection pool is dropped in HubHandlers and plays no part in the interleavings of HostLifecycle, where a revoked lease is one of the ways an attach request may fail.
- The HTTP and WebSocket handlers are methods of HubHandlers with the hub to themselves, and steps of HostLifecycle where others run between any two of their effects. Request decoding, trust challenges and status codes are not part of this model; origin check, upgrade, tmux and whatever starting a process takes besides its host are answers given to the handler, and so is whether a session exists.
- Remote writes are modelled as far as their staging files go: digests, ownership, permissions and connection loss are not.
- A Write is a sequence of steps of AtomicWrite rather than one method, since others run between its system calls. The last check and the rename are one step, and so are the look at the target and the pin; the original leaves a gap between the two calls of each pair.
- AtomicWrite names are flat: directories being renamed above the target, modes, owners, access lists, fsync and the size limit are not modelled. That a reader stops at one byte past the declared length is the condition that the body has it.
- The reader, starter and writer of TerminalPipeline are steps, not loops. Resizing, the ready message, input and the polling interval are not modelled, and neither is a write the peer accepts and loses.
- TextScan.LooksBinary: the file does not change while it is scanned, though it may be shorter than its size said.
- PathChanges: a change on the disk and its record are one step. A name vacated and taken again between the hub's rename and its answer is not modelled.
- TreeCache: two trees share a ticket counter, which only moves the counter; rendering of rows and expansion are not modelled.
- Guard: paths are lists of elements once parsed, a char of a string is a byte, and the tree is fixed during a resolution. Which look-ups fail is an arbitrary function of the path handed to the kernel; it covers permissions, which no operation on a resolved path consults here. Roots are taken as already canonical.
- SymlinkTree: the link walker is filepath.EvalSymlinks of the Go standard library, modelled on resolved directories, with the walker's own spelling of them beside. Reading a link that was looked up does not fail.
- SftpName: status and handle replies, and the rest of the packets, are not modelled. Times are seconds.
- Panes: fields and numbers are those a 64-bit platform can hold.
- ShellQuoting: the shell is a lexer of plain words; a character that would start anything else is refused by it.
- File manager components, configuration, capability probes, static files and the session catalogue are not part of this model.
