# Clixon backend: the configuration-datastore engine

The backend keeps named datastores (candidate, running, startup, rollback, failsafe, tmp) and serves NETCONF
sessions from one event loop. This project models that engine as a state machine whose steps are requests,
disconnects and timer expiry, follows it across crashes and restarts, and proves what holds over all its runs. It
also models the tree algorithms the engine leans on.

| file | what it models |
|---|---|
| `Datastore`, `Engine`, `Session` | stores, the commit transaction, the confirmed-commit machine, requests, steps and runs, as functions on the backend's state |
| `Backend` | the running daemon put together from its parts: stores updated in place, the linked client list of `Clients`, the timer list of `Timers`, the plugins of `Plugins` with their own state; every turn of it is a step of the specification |
| `Locks`, `Isolation`, `ConfirmedCommit`, `Validity`, `DirtyBit`, `Transaction` | what is kept over every run |
| `Effects` | what each request does to the stores, told on files, owners and dirty bits |
| `FailingRuns` | runs from a fresh start on which a promise is broken |
| `Recovery`, `Starts`, `CrashSafety` | the writes of a start, of a commit, an edit and a rollback, what a start ends with, and crashes between or inside any of the writes |
| `Plugins`, `Clients`, `Timers` | commit callbacks and their compensation, the client list, the event loop's timers |
| `XmlTree`, `DiffFlags`, `TransactionData`, `TwoKeyLists`, `Incremental` | tree comparison, change flags, the lists on which they go wrong, and validation that skips unflagged nodes |
| `SubtreeFilter`, `Pagination`, `LeafrefPath` | subtree filtering, list pagination, leafref paths |

A configuration is abstracted in the state machine to its content and to whether it satisfies the schema. What
incremental validation lets through is a parameter there: `lax` from an invalid configuration, `missed` from a valid
one. `Incremental.ValidateTransaction` shows on trees that this is what validation does, and that `missed` happens only
when a deletion is left uncovered by the flags. Plugin outcomes other than those of the commit callbacks, the order in
which store names are listed, and timer expiry are parameters.

Where the code does not do what its comments or the design promise, the model follows the code. A lemma says exactly
when the promise holds, and another gives an input or a run on which it does not:

- A commit by a session that cannot confirm the pending one, if it gets as far as the second phase, leaves the timer
  and the rollback store out of step with the state; so does a first confirmed commit over a zero-length running file
  (`CommitMachine`, `StepMachine`, `OverlapKeepsBase`; `OtherCommitBreaks`, `EmptyRunningBreaks`,
  `EmptyRunningOverwritten`).
- Running can be locked while a persistent confirmed commit is pending, unless an ephemeral one came before
  (`PendingLock`; `LockedUnderPersistent`).
- Loading failsafe drops the lock on running, whoever holds it (`LockMoves`, `LockLostToCancel`; `LockLost`).
- A rollback on a timer that the plugins refuse ends the backend even when failsafe has been loaded, unlike the same
  rollback on a cancel-commit or at the end of a session (`Restoration`, `RollbackOutcome`).
- A session removed by the end of its notification stream keeps its locks (`StreamEndKeepsLocks`; `LockLeftBehind`).
- An edit that asks for an immediate commit ends the ephemeral confirmed commit of another session
  (`AutoCommitIsolation`; `AutoCommitEnds`).
- A rollback store that is invalid is not treated as a failed rollback (`RollbackOutcome`). It comes about, over runs
  where running changes only by commits, exactly by a commit that lets an invalid configuration through (`StepSound`,
  `RunSound`, `RollbackNeverInvalid`; `InvalidCommitted`, `InvalidNotRestored`).
- After a rollback the candidate can differ from running with a clear dirty bit (`TimeoutClear`; `ClearAfterRollback`).
- When the first plugin fails to commit, its own revert callback is run (`Compensation`; `FirstPluginReverted`). When
  the commit-done phase or the copy to running fails, nothing is reverted at all (`Compensated`, `CommitDb`).
- The lookup of a node in the other tree goes by the first key of a list, and through a buffer of 64 ancestors, so in a
  list with several keys it can end at the wrong entry (`LookupFinds`, `EquivExact`). The entry that changed is then left
  unflagged, unless something else covers it, and its checks are skipped (`NoneOverlooked`, `LoneDeletion`;
  `TwoKeysMislead`, `TwoKeysAccepted`).
- Filtering twice is not filtering once for some filters with two siblings of one name (`RepeatableIff`;
  `TwoForOneName`).
- Turning a list around reverses it only if enough of the last children are elements (`TurnedReverses`;
  `NotReversed`).
- A page whose offset and limit together pass 32 bits is empty, although entries were asked for (`PageIs`;
  `WrappedPage`).
- A rollback first writes the rollback store to its file again, and a crash in that write loses the saved
  configuration (`RollbackCrash`, `SequenceRollbackCrash`; `RollbackLost`, `SavedLost`).
- A rollback the plugins refuse renames the rollback store before failsafe is loaded, and a crash in between leaves the
  unconfirmed configuration, or none, for the restart (`RefusedRollbackCrash`). A crash inside the copy that first
  saves running leaves a torn rollback store, which the restart goes for if it is not empty (`CommitCrash`).
- A start from running that crashes between emptying and writing running loses it (`RestartLoses`).
- A start in startup mode commits a rollback store it finds, where the comment at
  apps/backend/backend_confirm.c:579-582 says it is deleted; and when that commit is refused it is the mode's own store
  that is renamed, not the rollback store (`StartRestores`).
- The session counter wraps at 32 bits (`Clients.ClientList.Add`).

## Model

| member | source | states |
|---|---|---|
| Backend.Server.constructor | apps/backend/backend_confirm.c:90-109 | a fresh backend has no pending confirmed commit, no timer and no clients |
| Backend.Server.CancelRollbackEvent | apps/backend/backend_confirm.c:303-318 | exactly one of the registered rollback timers goes, if there is any, and whether there was one is reported |
| Backend.Server.Validate | apps/backend/backend_commit.c:635-709 | result and plugin phases entered up to the first failure, with a target that does not bind invalid before any of them |
| Backend.Server.ValidateDb | apps/backend/backend_commit.c:720-776 | any failure is reported as invalid; the phases end in one of end and abort |
| Backend.Server.CommitDb | apps/backend/backend_commit.c:795-894 | with the plugins' own commit callbacks run on their state, the transaction is the specified one for the verdict they gave, with its complete phase trace; a failed one leaves running as it was, and reversible plugins as told below |
| Backend.FailedCommitState | apps/backend/backend_commit.c:847-894 | reversible plugins are as they were after a failure before the commit phase; after one in it exactly unless the first failed and its revert changes something; after a later one they have all committed and nothing is reverted |
| Backend.Server.FinishCommit | apps/backend/backend_commit.c:847-885 | commit and commit-done phases on the plugins' state, then running is overwritten and the dirty bit cleared |
| Backend.Server.FromClientCancelCommit | apps/backend/backend_confirm.c:718-782 | accepted exactly for the ephemeral owner without persist-id or the right persist-id |
| Backend.Server.FromClientLock | apps/backend/backend_client.c:866-917 | granted only on a free store, and then to the requester |
| Backend.Server.FromClientUnlock | apps/backend/backend_client.c:933-995 | succeeds exactly for the lock's holder |
| Backend.Server.ReleaseAllDbs | apps/backend/backend_client.c:177-234 | the loop over all stores unlocks those of the session, in list order, up to a plugin's refusal |
| Backend.Server.Turn | apps/backend/backend_client.c:1579-1900 | every turn of the event loop, on linked client list, timer list, plugins and stores, is a step of the specification with the plugins' verdicts, and keeps the invariant, unless the session counter wraps |
| Effects.LockEffect | apps/backend/backend_client.c:307-375 | a free store goes to the requester, unless it is a dirty candidate or running with a session on record; a refusing plugin does not give it back; nothing else changes |
| Effects.UnlockEffect | apps/backend/backend_client.c:933-995 | the holder and no other frees the store |
| Effects.CopyEffect | apps/backend/backend_client.c:673-756 | a copy that is let through gives the target what the named source reads and makes a candidate dirty; any other changes no file; no other store changes |
| Effects.DeleteEffect | apps/backend/backend_client.c:768-854 | a deleted store is empty, free and dirty; running, or a store locked by another, stays |
| Effects.EditEffect | apps/backend/backend_client.c:395-657 | an edit that is let through leaves the edited configuration in its store, dirty; any other leaves file and dirty bit, and exactly the stated owner |
| Effects.AutoCommitEffect | apps/backend/backend_client.c:558-615 | one that commits at once ends a pending confirmed commit that is not persistent, and leaves its store and running alike, with the edit if the commit succeeds and with what running held if not |
| Effects.AutoCommitRunning | apps/backend/backend_client.c:558-615 | an edit of running itself stays in running also if its commit fails |
| Effects.CommitEffect | apps/backend/backend_commit.c:1013-1112 | a commit that does not just confirm makes running the candidate, clean, and free with automatic locking, exactly if both are free for the session, the candidate passes and the plugins agree |
| Effects.ConfirmEnds | apps/backend/backend_confirm.c:415-468 | a plain commit ends a pending one exactly if it is by the session on record of an ephemeral one, or brings the persist-id of a persistent one; then the stores but the rollback store stay |
| Effects.ConfirmedEffect | apps/backend/backend_confirm.c:533-600 | a confirmed commit is on record for its session or its persist-id, saves running unless a rollback store exists, and has one timer, in place of one it may confirm |
| Effects.CancelEnds | apps/backend/backend_confirm.c:718-782 | cancel-commit ends the sequence exactly for the session on record without a persist-id, or with the right persist-id; otherwise nothing changes |
| Effects.DiscardEffect | apps/backend/backend_commit.c:1125-1201 | the candidate becomes what running reads, clean, unless locked by another |
| Effects.SweepExact | apps/backend/backend_client.c:217-228 | at the end of a session exactly the listed stores it held are freed that have no refused one before them |
| Effects.CloseDiscards | apps/backend/backend_client.c:205-215 | with automatic locking a session that ends holding the candidate takes its changes with it |
| Timers.Register | lib/src/clixon_event.c:337-377 | the timer is put in its place in a sorted list, after those of the same time, and counts one more if it is a rollback timer |
| Timers.Unregister | lib/src/clixon_event.c:391-413 | the first match alone is removed: the earliest rollback timer, however many there are |
| Locks.StepKeepsInv | apps/backend/backend_client.c:307-375 | ids in order, owners below the counter, an ephemeral owner connected, and any holder of running's lock is then that owner: kept by every step |
| Locks.RunKeepsInv | apps/backend/clixon_backend_handle.c:142-215 | the same over every run |
| Locks.FreshHasInv | apps/backend/backend_main.c:903-1015 | a freshly started backend satisfies it |
| Locks.LockMoves | apps/backend/backend_client.c:307-375 | ownership moves only free to the requester or to free; and away from a session by others only by kill-session, or by the reset of running on the way to failsafe, exactly then |
| Locks.SessionEndReleases | apps/backend/backend_client.c:1926-1930 | after eof or kill-session the session holds no lock and is gone, if no plugin refuses |
| Locks.RunOwnersLive | apps/backend/backend_client.c:217-295 | over every run where sessions end that way, every lock holder is connected |
| Locks.StreamEndKeepsLocks | apps/backend/backend_client.c:133-168 | removal by the notification stream releases no lock, with the one exception exactly stated |
| Locks.StepKeepsRest | apps/backend/backend_client.c:247-295 | the client list changes by connecting and ending sessions only |
| Locks.CommitFrame | apps/backend/backend_commit.c:795-894 | what a transaction leaves alone; running is written only on success |
| Locks.RollbackFrame | apps/backend/backend_confirm.c:636-700 | a rollback ends inactive with no rollback store, and leaves candidate and other locks alone |
| Isolation.IsolationHolds | apps/backend/backend_client.c:437-445 | while a session holds both locks and owns the ephemeral commit, no run of other sessions' steps changes candidate, running, rollback store, confirmed-commit state or timer |
| Isolation.AutoCommitIsolation | apps/backend/backend_client.c:558-615 | an immediately committing edit by another session leaves it alone exactly when refused before it writes |
| ConfirmedCommit.CommitMachine | apps/backend/backend_confirm.c:486-617 | a commit keeps timer, rollback store and state in step exactly when it is not a breaking one; then the saved configuration is kept, or the sequence ends confirmed |
| ConfirmedCommit.StepMachine | apps/backend/backend_confirm.c:347-376 | the same for every step of the backend |
| ConfirmedCommit.RunMachine | apps/backend/backend_confirm.c:486-617 | over every run of valid commits: one timer and a rollback store exactly while a confirmed commit is pending |
| ConfirmedCommit.RollbackEndsInactive | apps/backend/backend_confirm.c:695-699 | every exit of a rollback leaves the machine inactive and consistent |
| ConfirmedCommit.FirstConfirmedSaves | apps/backend/backend_confirm.c:557-596 | the first confirmed commit saves running as it was before it |
| ConfirmedCommit.SequenceKeepsRollback | apps/backend/backend_confirm.c:557-596 | any number of overlapping commits and other steps leave the saved configuration as it was |
| ConfirmedCommit.RollbackOutcome | apps/backend/backend_confirm.c:657-693 | what running holds after a rollback, and whether the backend goes on, by the result of its commit and by whether failsafe loads |
| ConfirmedCommit.LockLostToCancel | apps/backend/backend_confirm.c:772-776 | a cancel-commit takes the running lock from its holder exactly when its rollback falls to failsafe, and the backend goes on exactly if the rollback was no error or failsafe loads |
| ConfirmedCommit.OverlapKeepsBase | apps/backend/backend_confirm.c:586-596 | a second confirmed commit keeps the saved configuration exactly when running existed before the first |
| ConfirmedCommit.LockGranted | apps/backend/backend_client.c:307-375 | a lock is granted exactly on a free store that is no dirty candidate, nor running with a session on record for a pending confirmed commit |
| ConfirmedCommit.PendingLock | apps/backend/backend_client.c:338-353 | right after a confirmed commit running can be locked exactly when it is persistent and no ephemeral one came before |
| FailingRuns.OtherCommitBreaks | apps/backend/backend_confirm.c:602-611 | a run from a fresh start after which the timer and the rollback store are out of step with the state, by another session's commit |
| FailingRuns.EmptyRunningBreaks | apps/backend/backend_confirm.c:586-596 | another, by a zero-length running store |
| FailingRuns.EmptyRunningOverwritten | apps/backend/backend_confirm.c:586-596 | a run on which the second confirmed commit overwrites what the first saved |
| FailingRuns.LockedUnderPersistent | apps/backend/backend_client.c:338-353 | a run on which running is locked by another session while a persistent confirmed commit is pending |
| FailingRuns.LockLost | apps/backend/backend_client.c:1804-1813 | a run on which a cancel-commit by one session takes the running lock from another, with both still connected and the backend up |
| FailingRuns.LockLeftBehind | apps/backend/backend_client.c:133-168 | a run after which a lock belongs to no connected session |
| FailingRuns.GuardedReached | apps/backend/backend_client.c:307-375 | a run to the state isolation is about: one session with both locks and an ephemeral confirmed commit |
| FailingRuns.AutoCommitEnds | apps/backend/backend_client.c:558-615 | from there, another session's edit ends that confirmed commit |
| FailingRuns.InvalidCommitted | apps/backend/backend_commit.c:165-195 | a run without a direct write of running that ends with running invalid |
| FailingRuns.InvalidNotRestored | apps/backend/backend_confirm.c:661-691 | another on which a timeout then drops an invalid rollback store without restoring it |
| FailingRuns.SavedLost | apps/backend/backend_commit.c:651-658 | a run, and a crash in the rollback at its end, after which a start keeps the configuration that was never confirmed |
| FailingRuns.ClearAfterRollback | apps/backend/backend_confirm.c:636-700 | a run after which the dirty bit is clear and the candidate is not running |
| Validity.StepSound | apps/backend/backend_commit.c:635-709 | a step that does not write running directly keeps running and the rollback store valid exactly unless it commits an invalid configuration that a misplaced deletion lets through |
| Validity.RunSound | apps/backend/backend_commit.c:841-855 | they stay valid over every run in which no step does |
| Validity.RollbackNeverInvalid | apps/backend/backend_confirm.c:661-664 | committing a valid rollback store never fails validation and succeeds exactly when the plugins accept |
| Validity.Restoration | apps/backend/backend_confirm.c:636-700 | after a whole sequence, timeout, cancel, kill or disconnect of the owner ends with running as it was before the first commit; if plugins refuse, with failsafe if that loads; and the backend goes down if it does not, or if it was a timeout |
| Transaction.CommitOutcome | apps/backend/backend_commit.c:795-894 | closed once, by end exactly on success; success exactly when the store reads, passes validation and all plugins agree; running changes exactly then, to that store's content |
| Transaction.ValidateOutcome | apps/backend/backend_commit.c:720-776 | closed once, and success exactly when validation and the plugins of its phases agree |
| Transaction.PhaseOrder | apps/backend/backend_commit.c:690-709 | the plugins see begin, validate, complete, commit and commit-done in that order, up to the first refusal, and one closing; a transaction is told invalid exactly for a target that does not bind or is not admitted |
| Transaction.FailsafeOutcome | apps/backend/backend_commit.c:1319-1360 | succeeds exactly when failsafe exists, is valid and plugins agree; running is failsafe or what it was |
| DirtyBit.StepClear | apps/backend/backend_client.c:550-615 | a clear bit still means candidate equals running after every step that changes running only by committing the candidate |
| DirtyBit.RunClear | apps/backend/backend_commit.c:863-867 | the same over every run |
| DirtyBit.TimeoutClear | apps/backend/backend_confirm.c:636-700 | after a rollback a clear bit means that exactly when the candidate equals the saved configuration |
| DirtyBit.StepLocked | apps/backend/backend_client.c:447-453 | with automatic locking a dirty candidate stays locked exactly unless unlocked or deleted |
| DirtyBit.RunLocked | apps/backend/backend_client.c:716-734 | the same over every run |
| DirtyBit.DraftsKeepRunning | apps/backend/backend_client.c:395-657 | no run of work on other stores without a commit changes running |
| DirtyBit.DiscardUndoes | apps/backend/backend_commit.c:1183-1191 | a round trip: from a clean candidate, whatever any sessions edit, copy, delete or lock, discarding gives back the candidate of the start, clean |
| Recovery.StoreDir.StartupCommit | apps/backend/backend_commit.c:532-618 | running is emptied, then written, only on acceptance; the transaction is closed once |
| Recovery.StoreDir.StartupModeStartup | apps/backend/backend_startup.c:134-206 | the rollback store is committed and then deleted, or failsafe instead, or the mode's own store |
| Recovery.StoreDir.Start | apps/backend/backend_main.c:903-1000 | a whole start makes exactly the specified writes in order |
| Starts.StartEnds | apps/backend/backend_main.c:903-1000 | what running, startup, rollback store and failsafe hold after a start, in either mode and for any verdicts: what it goes for, failsafe in its stead, or the backup |
| Starts.OwnLoaded | apps/backend/backend_main.c:934-966 | without a rollback store an accepted start has in running what running held, or what startup holds, by its mode |
| Recovery.StartRestores | apps/backend/backend_startup.c:153-185 | a start restores the rollback store when its commit is accepted and never touches it otherwise |
| Recovery.CrashesKeepSaved | apps/backend/backend_startup.c:153-185 | over any number of crashes, between or inside any writes, in either mode and for any verdicts, the saved configuration is still there or in place |
| Recovery.RecoveryRestores | apps/backend/backend_startup.c:153-185 | after them a start that completes gives the saved configuration and drops the store |
| CrashSafety.CommitLogExact | apps/backend/backend_confirm.c:486-617 | the list of a commit's store writes leads to exactly the stores it leaves |
| CrashSafety.CommitCrash | apps/backend/backend_confirm.c:384-399 | for a crash anywhere in a sequence's commits, torn writes included, exactly what a restart in either mode goes for: the saved configuration until the one deletion that confirms, or what a torn first save left |
| CrashSafety.RollbackLogExact | apps/backend/backend_confirm.c:657-693 | the writes of a rollback, with the rewriting of stores held in memory and those of its fall to failsafe, lead to exactly the stores it leaves |
| CrashSafety.RollbackCrash | apps/backend/backend_startup.c:153-185 | a rollback that crashes at any point, then any crashed starts: the start that completes has the saved configuration in running, exactly unless the crash tore the rollback store and left something else to go for |
| CrashSafety.RollbackLost | apps/backend/backend_commit.c:651-658 | the crash that does so |
| CrashSafety.RefusedRollbackCrash | apps/backend/backend_confirm.c:670-684 | for a refused one, exactly what a restart in either mode goes for after or inside each of its writes |
| CrashSafety.SequenceCrashSafe | apps/backend/backend_startup.c:153-185 | any run of a sequence, a crash in a commit, any crashed starts: the start that completes restores the configuration from before the sequence |
| CrashSafety.EditLogExact | apps/backend/backend_client.c:540-615 | the writes of an edit, also one that commits at once, lead to exactly the stores it leaves |
| CrashSafety.EditCrash | apps/backend/backend_client.c:558-615 | a crash inside an edit leaves the rollback store as it was, exactly until an edit that ends an ephemeral sequence has dropped it |
| CrashSafety.SequenceEditCrash | apps/backend/backend_startup.c:153-185 | so after any run of a sequence and such a crash, the start that completes restores the configuration from before the sequence |
| CrashSafety.SequenceRollbackCrash | apps/backend/backend_confirm.c:657-668 | the same for a crash in the rollback that ends the sequence, with the exact condition |
| CrashSafety.FirstCommitCrashSafe | apps/backend/backend_confirm.c:586-596 | the same for a crash in the first confirmed commit once running is saved |
| CrashSafety.RestartLoses | apps/backend/backend_commit.c:561-584 | an ordinary start from running loses it exactly when it crashes between emptying and writing it |
| Plugins.Host.CommitOne | apps/backend/backend_plugin.c:809-818 | a missing callback succeeds and does nothing |
| Plugins.Host.CommitFailedOne | apps/backend/backend_plugin.c:789-799 | only the failed plugin is called |
| Plugins.Host.RevertAll | apps/backend/backend_plugin.c:764-784 | the reverse walk, its state and its calls, up to a failing revert |
| Plugins.Host.CommitAll | apps/backend/backend_plugin.c:831-852 | the first failing plugin, the combined state and every callback made |
| Plugins.Compensation | apps/backend/backend_plugin.c:831-852 | a failed commit leaves the combined state unchanged exactly when a later plugin failed or the first one's revert changes nothing |
| Plugins.RevertOrder | apps/backend/backend_plugin.c:754-784 | if reverts succeed, the callbacks made are the plugins with one, last first |
| Plugins.DescendingIs | lib/src/clixon_plugin.c:243-276 | each such plugin exactly once, in strictly descending order |
| Plugins.RevertWalk | apps/backend/backend_plugin.c:764-784 | whatever the callbacks report, the reverts made begin that list, and end with one that fails, whose effect stays |
| Plugins.CommitEventsAre | apps/backend/backend_plugin.c:831-852 | commit callbacks are made once each, first to last, up to the failing plugin |
| Plugins.UndoOrder | apps/backend/backend_plugin.c:831-852 | the failed plugin is told before any revert |
| Plugins.FirstPluginReverted | lib/src/clixon_plugin.c:258-266 | a plugin for which the extra revert of the first one does harm |
| TransactionData.LookupFinds | apps/backend/backend_commit.c:165-205 | the lookup by first key or name finds the same node exactly when no earlier sibling shares its name and first key |
| TransactionData.ShadowedKind | apps/backend/backend_commit.c:165-195 | only entries of lists with several keys, or of leaf-lists, can be shadowed in that way |
| TransactionData.Ancestors | apps/backend/backend_commit.c:152-157 | the buffer holds the nearest non-root ancestors, at most 64 |
| TransactionData.FindTargetEquiv | apps/backend/backend_commit.c:141-210 | the walk up into the buffer and down through the other tree gives the place that looking up each ancestor gives |
| TransactionData.EquivExact | apps/backend/backend_commit.c:141-210 | that place is the counterpart of the parent exactly when at most 64 ancestors are not the root and none of their counterparts is shadowed |
| TransactionData.Changes.Merge | lib/src/clixon_xml_diff.c:285-455 | the lock-step merge collects exactly the maximal missing nodes of each tree and the leafs with another value |
| TransactionData.Changes.Diff | lib/src/clixon_xml_diff.c:475-510 | the same for whole trees |
| TransactionData.FlagMissing | apps/backend/backend_commit.c:244-279 | flags at, below and above nodes only in one tree, and above the place found for them in the other, for any trees |
| TransactionData.FlagChanged | apps/backend/backend_commit.c:280-287 | flags at and above changed leafs in both trees |
| TransactionData.Changes.ComputeDiffs | apps/backend/backend_commit.c:219-291 | the differences, and in both trees exactly the flags that follow from them |
| TransactionData.FlagsExact | apps/backend/backend_commit.c:219-291 | if the places of all missing nodes can be found, a node is flagged exactly when it has no counterpart with an equal subtree |
| TransactionData.LoneDeletion | apps/backend/backend_commit.c:244-261 | after a single deletion the flags are right exactly when its place can be found |
| TransactionData.NoneOverlooked | apps/backend/backend_commit.c:219-291 | whatever the difference, no changed node is left unflagged exactly when each deletion has its place found, or is covered by an addition, a changed leaf or the place of another deletion |
| TwoKeyLists.TwoKeysMislead | apps/backend/backend_commit.c:165-195 | two entries that share their first key: the one that changed carries no flag |
| TwoKeyLists.TwoKeysAccepted | lib/src/clixon_validate.c:1923-1953 | from a valid source, an invalid target of which every node passes |
| DiffFlags.DifferSomewhere | lib/src/clixon_xml_diff.c:263-282 | two different versions of a node differ in a missing node, a new node or a leaf's value |
| DiffFlags.MarkedIffChanged | apps/backend/backend_commit.c:219-291 | the marks that follow from the differences are neither too few nor too many |
| Incremental.ValidateNode | lib/src/clixon_validate.c:1862-1893 | a node passes when every rule not skipped at it holds and, if it is new or changed, it is in no conflict with a sibling of another case |
| Incremental.RuleMeans | lib/src/clixon_validate.c:1931-1952 | a rule with a height is about the subtree that high above the node, and skipped exactly if that carries no flag; others are about the whole tree and never skipped |
| Incremental.ValidMeans | lib/src/clixon_validate.c:1862-1893 | a tree is valid exactly if all rules hold at all nodes and no two siblings are of different cases |
| Incremental.ValidateAll | lib/src/clixon_validate.c:2286-2306 | every node of a subtree passes |
| Incremental.GenericValidate | lib/src/clixon_validate.c:2603-2634 | the same below the root, with the root's check never skipped |
| Incremental.SkippedHolds | lib/src/clixon_validate.c:1923-1953 | a rule skipped at an unflagged height holds there if it holds throughout the source |
| Incremental.RulesAgree | include/clixon_custom.h:324-330 | if the source satisfies the rules and changed nodes are flagged, the rules checked at flags alone hold everywhere |
| Incremental.ChoicesAgree | lib/src/clixon_validate.c:1872-1881 | checking choices on new and changed nodes alone finds every conflict, when conflicts are mutual and the source has none |
| Incremental.ValidateTransaction | apps/backend/backend_commit.c:95-123 | a valid target is never refused; from a valid source, or an empty one, an invalid one is never accepted if all deletions are covered; so the verdict is that of the state machine's validation |
| SubtreeFilter.CheckFilter | apps/netconf/netconf_filter.c:118-157 | containments, attribute match and content match |
| SubtreeFilter.PruneKids | apps/netconf/netconf_filter.c:161-183 | purging while iterating gives the children of the pure filter, none skipped or visited twice |
| SubtreeFilter.FilterRecursive | apps/netconf/netconf_filter.c:103-191 | the recursion computes the pure recursive filter and its removal verdict |
| SubtreeFilter.XmlFilter | apps/netconf/netconf_filter.c:201-213 | at the top a tree to be removed is returned whole |
| SubtreeFilter.FilterSelects | apps/netconf/netconf_filter.c:118-157 | a tree is kept exactly if for every leaf of the filter its first child of that name is there and, if it is a leaf, has the same content; and the attributes stand |
| SubtreeFilter.FilterLeaves | apps/netconf/netconf_filter.c:158-183 | of a kept tree all is left if the filter has leafs only, and otherwise, in order, what survives of each child |
| SubtreeFilter.TopReturnsWhole | apps/netconf/netconf_filter.c:201-213 | at the top a tree that disagrees is returned whole |
| SubtreeFilter.FilterIsPart | apps/netconf/netconf_filter.c:67-80 | the result is an ordered part of the input |
| SubtreeFilter.FilterTwice | apps/netconf/netconf_filter.c:103-191 | filtering twice is filtering once for a repeatable filter |
| SubtreeFilter.NotRepeatable | apps/netconf/netconf_filter.c:161-183 | for every other filter there is a tree on which the second pass differs |
| SubtreeFilter.RepeatableIff | apps/netconf/netconf_filter.c:103-191 | filtering twice is filtering once on every tree exactly for repeatable filters, a condition on the filter alone |
| SubtreeFilter.FilterTopTwice | apps/netconf/netconf_filter.c:201-213 | in particular when filter siblings have distinct names |
| SubtreeFilter.TwoForOneName | apps/netconf/netconf_filter.c:161-183 | a filter with two siblings of one name whose second pass removes what the first kept |
| Pagination.Backwards | apps/backend/backend_get.c:572-592 | the two-index loop in place is the recursion from both ends |
| Pagination.TurnedPermutes | apps/backend/backend_get.c:572-592 | children are only rearranged |
| Pagination.TurnedKeepsPlaces | apps/backend/backend_get.c:572-592 | non-elements stay in place and elements only take places of elements |
| Pagination.TurnedTwice | apps/backend/backend_get.c:572-592 | applying it twice is the identity, for any children |
| Pagination.TurnedReverses | apps/backend/backend_get.c:572-592 | distinct elements are reversed exactly when the last half as many children are elements |
| Pagination.NotReversed | apps/backend/backend_get.c:572-592 | children that are not |
| Pagination.GetPage | apps/backend/backend_get.c:593-607 | the slice from offset, for any 32-bit offset and limit, with the bound computed in 32 bits |
| Pagination.PageIs | apps/backend/backend_get.c:593-607 | for any offset and limit the page is the entries asked for, all the rest if there is no limit and none past the end, exactly unless offset and limit pass 32 bits, when it is empty |
| Pagination.WrappedPage | apps/backend/backend_get.c:593-607 | a request that comes out empty so |
| Pagination.Paginate | apps/cli/cli_show.c:1518-1582 | the client loop ends and its pages together are the whole list in order |
| LeafrefPath.DropLast | apps/backend/backend_clixon_lib.c:443-448 | cuts the buffer at its last slash, if any |
| LeafrefPath.XPathAppend | apps/backend/backend_clixon_lib.c:406-496 | on a written path the loop gives the written extended path |
| LeafrefPath.MovesAre | apps/backend/backend_clixon_lib.c:436-480 | what a piece of a path means, a dot, two dots or a name, with and without a prefix |
| LeafrefPath.LeadingUps | apps/backend/backend_clixon_lib.c:436-460 | ups at the front each take a step off the path and leave no trace |
| LeafrefPath.AppendMeaning | apps/backend/backend_clixon_lib.c:406-496 | walking the extended steps is walking the base and then the appended ones |
| LeafrefPath.ExtendedTarget | apps/backend/backend_clixon_lib.c:406-496 | the extended string leads where walking base and path leads; leading ups stop at the root; an absolute path starts there |
| LeafrefPath.LeafrefAppendUnion | apps/backend/backend_clixon_lib.c:544-586 | the members' paths joined, or the path as it was if there is no leafref member |
| LeafrefPath.UnionTargets | apps/backend/backend_clixon_lib.c:544-586 | the joined string leads exactly to the targets of the leafref members |
| Clients.ClientList.Add | apps/backend/clixon_backend_handle.c:142-169 | a new entry in front with the next id; order and bound of ids are kept exactly when the counter does not wrap |
| Clients.ClientList.Delete | apps/backend/clixon_backend_handle.c:190-215 | exactly that entry is unlinked, and the ids are those of the session model |
| Clients.ClientList.Find | apps/backend/clixon_backend_handle.c:224-235 | null exactly when no entry has the id |
| Clients.RemovedIds | apps/backend/clixon_backend_handle.c:190-215 | unlinking an entry removes its id and keeps the order |

## Left out

- Private candidates, and the three-way update they need.
- System-only configuration, state data, with-defaults, NACM, and the merging of extra XML at start.
- Parsing, printing, sockets, framing, privileges, process control, the CLI user interface.
- The init and none start modes, and renaming of failed stores at start beyond the file being gone.
- Kill-session of the own session, and what closing a session does to its subscriptions.
- The text of error replies; a refused request is a step that leaves the state as stated.
- Recovery.StoreDir.StartupCommit: a commit is refused before it writes; a failing write after the plugins have committed is not modelled.
- Recovery.StoreDir.Start: the merging of extra XML into running after the start, and its writes, are not modelled.
- Backend.Server.Validate: a running store that does not bind to the schema is read like any other; only the target is refused for it.
- Backend.Server.Turn: the copy of running to startup that an edit can ask for is not modelled, and after the session counter has wrapped nothing is promised.
- The in-memory copy of a store outliving its renamed file, and copies that fail half-way while the backend runs.
- TransactionData.Changes.Diff: as for Merge, below.
- TransactionData.Changes.Merge: lists and leaf-lists ordered by user, state nodes, nodes marked to be skipped and anydata are not modelled; trees are values addressed by path, so parent pointers are not.
- SubtreeFilter.PruneKids: children are purged from a sequence, so sharing of nodes is not modelled.
- Incremental.ValidateAll: rules are judged as functions of a subtree; XPath itself is not modelled. Which cases exclude each other is a parameter, so nested choices are not modelled as such.
- Pagination.Paginate: the user breaking off the output is not modelled.
- LeafrefPath.XPathAppend: the namespace context is not modelled, and predicates holding a slash are outside the path form.
- LeafrefPath.UnionTargets: paths that hold a bar are not modelled; the grammar of a leafref path has none (section 9.9.2 of RFC 7950).
