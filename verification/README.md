# tmux-recover: a verified model

tmux-recover saves the state of a tmux server as immutable snapshots and rebuilds a server from one of
them. This project models the parts of it where a mistake loses somebody's work, and proves in Dafny 4.11
what they promise. `dafny verify dfyconfig.toml` checks all of it.

## What is modelled

| file | what it covers |
|---|---|
| `SnapshotGraph.dfy`, `Structure.dfy`, `Ordering.dfy` | the snapshot graph, its validation, and its structural projection |
| `RestoreIndexes.dfy`, `BackupNames.dfy`, `Restarts.dfy`, `Preflight.dfy` | the look-ups, fresh names, restart commands and checks of a restore |
| `TmuxServer.dfy` | tmux itself, as the commands a restore sends: what each needs, does and prints |
| `Rebuild.dfy`, `ClientSwitching.dfy`, `Transaction.dfy` | rebuilding a snapshot, moving the terminals, committing or rolling back |
| `Snapshots.dfy`, `Store.dfy`, `Saving.dfy` | snapshots and process checkpoints, the store on disk, and everybody who writes to it |
| `Retention.dfy`, `RetentionRuns.dfy` | what a prune keeps, and what survives any history of commits and prunes |
| `IdentityCache.dfy`, `Publication.dfy` | the cache of snapshot ids under interference, and which server version becomes current |
| `Lifecycle.dfy` | stopping and reloading the daemon through its control socket |
| `Layout.dfy`, `CaptureRecord.dfy`, `ControlStream.dfy`, `OneShot.dfy`, `Bytes.dfy` | the parsers: layouts, capture records, control-mode blocks |
| `Wrappers.dfy` | Option, Result and a few facts about sequences and sets |

Objects the program updates in place are classes (`TmuxServer.Server`, `Store.SnapshotStore`,
`IdentityCache.Directory`, `Layout.LayoutParser`, `ControlStream.ControlClient`,
`Lifecycle.LifecycleState`, `Lifecycle.LifecycleDelivery`, `Lifecycle.ControlServer`), and its loops are
loops. A ghost `trace` in `Server` and in `SnapshotStore` holds the state after every single command or
file operation, so a statement about all of the trace is a statement about a crash at any point. `Server.looks` holds what windows, panes and sessions were told (layout, name, program, title, zoom, selection), and
`Server.visits` the sessions each terminal was sent to, in order. Ghost
counters note failures (`faults`, of commands tmux would have accepted; `failedMoves`, of any `move-window`),
and what a store has ever written and how its prunes were configured (`written`, `windows`, `latest`). Protocols
between processes (`Publication`, `Lifecycle`, `RetentionRuns`) are state machines with lemmas over every run.

## What is assumed

- Hashes are modelled by the value they are taken of: equal hashes are equal contents. Snapshot ids are a
  time and such a hash; where a statement needs a new id to be unused on disk, it says so (`Unused`, `Novel`).
- Times are integers in microseconds; hours and days are floor divisions of them, as in UTC.
- Replacing or removing a file is one atomic step that may fail before or after it took effect. Reads may fail.
- tmux executes a command completely or not at all. A split puts the new pane after its target, a grouped
  session shares the list of its primary, indexes are not renumbered, ids are never used twice. A killed
  session takes its list with it unless another session shares it, and every window no other list shows; to
  begin with, every list is used and every window is shown (`TmuxServer.Tidy`). During a restore nothing
  else changes the server, but any terminal may detach before any command.
- There is always room for a split. tmux refuses one where there is none, which the program works against by
  enlarging each new pane upwards; a refused split is a failed command like any other here.
- tmux prints ids and client records in the form it is asked for.
- tmux does not change a session name it is given (it would replace `:` and `.`), and command text is
  quoted correctly; commands are structured values here.
- Maps are iterated in arbitrary order, so nothing proved depends on an order.

## What turned out not to hold, and when it does

- A rebuild parks the first window of every new session at the least index no saved session uses. When the
  server's `base-index` is that very index, the window is there already and `move-window` fails. A rebuild
  without tmux failures succeeds exactly when this is not so (`Rebuild.CanPark` in `Rebuild.BuildSnapshot`;
  `Rebuild.ParkingFailsExactly` says when that is, `Preflight.ClosedFirstWindow` gives a snapshot that
  preflight accepts).
- A rollback can leave behind a session it does not know of, because a session is recorded only after its
  `move-window`. It does exactly when a `move-window` failed, and there is never more than one such session
  (`failedMoves` and `Transaction.Stray` in `Transaction.ApplyInner`). So without tmux failures every restore
  stopped by the collision above leaves a session, named like the first saved one, and no other failed restore
  leaves any (`Transaction.OrphanExactly`). The rollback then reports success exactly when no old session has that name;
  otherwise that one old session keeps its backup name (`Transaction.NamesAt`, `Transaction.NameCollides`).
- A zoomed window without an active pane passes preflight, and its restore then always fails
  (`Transaction.ZoomKnown` in `Transaction.FinishSessions`, `Preflight.ZoomWithoutActivePaneIsAccepted`).
- A pane whose program has a path that is not UTF-8, or a stored path that does not decode, passes preflight if
  the allowlist knows its name, and the restore then always fails when it comes to start it. Programs can be
  started exactly when `Restarts.LaunchKnown` holds of the planned state (`Transaction.FinishSessions`,
  `Preflight.PlanLaunches`);
  `Restarts.NamedButNotLaunchable` gives two such programs, `Preflight.UnlaunchableRestartIsAccepted` shows that
  any accepted snapshot stays accepted with one.
- So, tmux failures apart, a restore succeeds exactly when the placeholders can be parked, zoomed windows have
  active panes, programs can be started, and the capture has a socket (`Transaction.Ready`).
- A prune without failures can stop with an error after it removed everything it had to: a safety mark that has
  expired is removed once for every file of its id. It does so exactly when an id beyond the newest safety
  snapshots has both a plain and a compressed file (`Store.SnapshotStore.Prune` with
  `Retention.ExpiredTwiceExactly`; `Retention.OneMarkTwoFiles` gives the case). A save around it reports that
  error although its snapshot was committed.
- A second prune right after the first removes nothing, unless one id has both a plain and a compressed file,
  one of them among the newest safety snapshots and the other beyond (`Retention.PruneTwice` says exactly
  when, `Retention.TwoFilesOfOneId` gives the case).
- A capture without a socket identity gives a sidecar that no restore accepts, so the agreement of sidecar
  and current snapshot is stated for captures that have one (`Saving.EligibleExactlyWithSocket`).

## Model

| member | source | states |
|---|---|---|
| SnapshotGraph.Validate | src/model.rs:356-512 | the imperative validation passes exactly the well-formed graphs, and each error it reports names a clause that is really broken |
| SnapshotGraph.ValidateSession | src/model.rs:390-442 | one session's links, indexes and active and last window are right exactly when its check passes |
| SnapshotGraph.ValidatePanes | src/model.rs:457-490 | the sorting-free check of pane indexes accepts exactly an ascending run without gaps from a base tmux accepts, with distinct ids |
| SnapshotGraph.ValidateWindows | src/model.rs:455-511 | no pane is in two windows and every window is right, exactly when the loop with its shared set passes |
| Structure.ActivityOrderIrrelevant | src/model.rs:303-354 | listing the same terminals in another order of activity gives the same structural hash |
| Structure.VolatileFieldsIrrelevant | src/model.rs:290-354 | what the panes run and when sessions were made does not enter the structural hash |
| Structure.StructureFixesPanes | src/restore.rs:279-284 | states with equal structural hashes have the same panes |
| Structure.StructureExactly | src/model.rs:290-354 | two states have equal structural hashes exactly when they differ at most in creation times, in what their panes run, and in the order of the terminals: names, links, groups, layouts, sizes, zoom, titles, directories and attachments all enter |
| RestoreIndexes.SessionGroups | src/restore.rs:1400-1408 | every group is mapped to its members in saved order, and nothing else is mapped |
| RestoreIndexes.Primaries | src/restore.rs:872-888 | every session gets the first of its group, or itself, as primary, and exactly the other members are deferred, whatever the map order |
| RestoreIndexes.LeaderFacts | src/restore.rs:872-888 | two sessions have one primary exactly when they are one session or name one group |
| RestoreIndexes.WindowOwners | src/restore.rs:1429-1440 | every linked window is mapped to all places it is linked at, in saved order |
| RestoreIndexes.UnusedWindowIndexIsLeast | src/restore.rs:1418-1427 | the placeholder index is the least one no session uses, and is found within as many tries as indexes are used |
| Ordering.NameLeqIsLexicographic | src/restore.rs:1511-1520 | names are ordered by their first different character, a beginning of a name before it |
| BackupNames.FreeName | src/restore.rs:688-694 | the loop takes the first candidate nobody uses, after at most as many collisions as there are reserved names |
| BackupNames.FreeNames | src/restore.rs:679-700 | the backup names are pairwise distinct and none of them is a name of a target or snapshot session; each is the first candidate of its place that is not taken |
| Preflight.ValidateStateForRestore | src/restore.rs:328-375 | accepts exactly the states with distinct nonempty names, windows with live panes and a layout that fits, and groups that share their links; each refusal says what is really so |
| Preflight.ValidateGroups | src/restore.rs:361-373 | the check group by group is that every session links what the first of its group links |
| Preflight.RestorableIsBuildable | src/restore.rs:91-98 | whatever preflight accepts meets what a rebuild needs |
| Preflight.ZoomWithoutActivePaneIsAccepted | src/restore.rs:1213-1230 | any accepted snapshot stays accepted when a window of it is zoomed and has no active pane, which its restore then needs |
| Restarts.NamedButNotLaunchable | src/restore.rs:599-615 | the name the allowlist sees is that of a program in a directory whose name is not UTF-8, or of the first argument when the path does not decode, and neither can be launched |
| Preflight.UnlaunchableRestartIsAccepted | src/restore.rs:1273-1282 | any accepted snapshot stays accepted when a pane of it runs an allowed program that cannot be put into a command, which its restore then needs |
| Restarts.FileNameIsLast | src/restore.rs:599-615 | the name of an executable is the last component of its path, before any slashes and `.` at the end, and there is none when that is `..` or nothing |
| Restarts.ProcessBasenameIs | src/restore.rs:599-615 | the allowlist sees the executable's name; without one, what follows the last slash of the first argument, if there is one |
| Restarts.PaneLaunch | src/restore.rs:1273-1296 | a command is made exactly of a path that is text with a known shell: that path, the arguments after the first, that shell |
| Preflight.PlanLaunches | src/restore.rs:1273-1296 | a plan's programs can all be started exactly when each one the allowlist lets through has a path that is text |
| Preflight.PlannedReady | src/restore.rs:231-239 | what the plan adds decides only whether programs can be started, not whether placeholders can be parked or windows zoomed |
| Preflight.PlannedDirectories | src/restore.rs:936-1000 | in a copy built by the plan every pane was started in its own directory if that resolves, and in the fallback otherwise |
| Preflight.PlanIsCarriedOut | src/restore.rs:1095-1122 | after a restore by the plan, each program the allowlist lets through was started in its pane's planned directory by its path and with its arguments, and nothing was started in any other pane |
| Preflight.ValidateOrigin | src/restore.rs:306-326 | passes exactly snapshots of this host, user and, if they name one, socket, unless a mismatch is allowed; the refusal tells which of the three match |
| Preflight.ChooseDirectories | src/restore.rs:105-137 | without a usable fallback no unresolved directory is accepted, and the first one is named; otherwise every pane is given its own directory or the fallback, and exactly the unresolved panes are recorded, in order |
| Preflight.LookUpIsRight | src/restore.rs:161-196 | an eligible checkpoint alone decides what a pane is restarted with, also by saying nothing; without one the snapshot does |
| Preflight.Preflight | src/restore.rs:82-240 | accepts exactly the valid, restorable snapshots from here, or with a mismatch allowed, on an allowed target with resolvable directories and, if anything is restarted, a known shell; each refusal says what is really so; the plan directs and restarts exactly what it should, ignores an ineligible checkpoint with a warning, and can be rebuilt |
| TmuxServer.Server.Execute | src/restore.rs:1360-1366 | a command takes its whole effect or none, what windows, panes and sessions are told included, and moves no terminal it does not name or evict |
| TmuxServer.KeepsUntouched | src/restore.rs:865-1079 | a command that addresses only what is new leaves every old session, list and window as it is |
| TmuxServer.KillSessionKeepsUntouched | src/restore.rs:821-828 | killing a newer session takes no list and no window of an older one with it |
| Rebuild.CreatePrimary | src/restore.rs:893-920 | a primary is created with its first window parked; exactly a failure between the two commands leaves an unrecorded session, and without tmux failures that is the only one |
| Rebuild.CreatePrimaries | src/restore.rs:889-920 | after the loop every primary is live under its saved name with only its placeholder |
| Rebuild.CreateWindow | src/restore.rs:924-1015 | a window is created where its owner has it, with its panes in saved order and at saved indexes; it is told to keep its name meanwhile, and every pane split off is enlarged before the next split |
| Rebuild.CreateWindows | src/restore.rs:922-1015 | all windows are shown on their owners' primaries, with injective window and pane maps |
| Rebuild.LinkWindows | src/restore.rs:1017-1048 | after linking, every primary lists exactly its saved windows at their saved indexes besides its placeholder, in any order of the owners map |
| Rebuild.KillPlaceholders | src/restore.rs:1050-1052 | removing the placeholders in any order leaves exactly the saved lists and kills no session |
| Rebuild.CreateMembers | src/restore.rs:1054-1072 | every grouped session shares its primary's list and has its saved name |
| Rebuild.BuildSnapshot | src/restore.rs:865-1079 | an isomorphic copy next to an untouched old state, and nothing else; without tmux failures it succeeds exactly when the first window is not already at the placeholder index; an unrecorded session is left exactly when a `move-window` failed, without tmux failures exactly when that index is the server's `base-index` |
| Rebuild.ParkingFailsExactly | src/restore.rs:906-916 | parking the placeholders fails, by itself, exactly when the server numbers windows from the least index the snapshot does not use |
| Preflight.ClosedFirstWindow | src/restore.rs:906-916 | a snapshot of one session without a window 0 passes preflight, and its placeholder cannot be parked where windows are numbered from 0 |
| ClientSwitching.ByActivitySorted | src/restore.rs:1511-1520 | ordering by activity and name is a sorted permutation of the terminals |
| ClientSwitching.SwitchIfPresent | src/restore.rs:1659-1698 | a failed switch is put up with, by a warning, only when the terminal is really gone |
| ClientSwitching.VerifySwitched | src/restore.rs:1599-1621 | each switched terminal is either found on its target in the final listing and recorded, or gone and warned about |
| ClientSwitching.CountVisibility | src/restore.rs:1632-1651 | every restored session is reported with its number of ordinary terminals, and the numbers add up to the terminals on restored sessions |
| ClientSwitching.DesireBelongs | src/restore.rs:1522-1566 | the k-th terminal by activity is to be on the first saved session with the id of attachment k; if there is none, on the one named like the session it came from; failing that, on the first; its last session is that of the attachment if it was restored and is another |
| ClientSwitching.SwitchClients | src/restore.rs:1493-1657 | records and warnings together are exactly the ordinary terminals listed at the start, the most recently active first; each record is of a terminal that the final listing has on the session that belongs to its place, and that was sent first to its last session and then there |
| Transaction.RenameToBackups | src/restore.rs:706-717 | after any number of renames the old state is complete, some of its sessions under backup names |
| Transaction.RestoreProperties | src/restore.rs:1125-1193 | if it succeeds, every window of the copy has its saved layout, name, automatic renaming and active pane, and follows the size policy; nothing else was told anything |
| Transaction.StartPanes | src/restore.rs:1095-1122 | if it succeeds, every pane with a program to be restarted was respawned with exactly that program, arguments and shell in its directory, and no other pane was; without tmux failures it does exactly when every one of them can be put into a command |
| Transaction.RestoreTitles | src/restore.rs:1195-1211 | if it succeeds, exactly the panes with a saved title were given it |
| Transaction.RestoreZoomed | src/restore.rs:1213-1230 | if it succeeds, exactly the windows that were zoomed are; without tmux failures it does exactly when each of them has an active pane |
| Transaction.RestoreSelections | src/restore.rs:1232-1271 | if it succeeds, every session shows its saved active window, and came there from its saved last one |
| Transaction.FinishSessions | src/restore.rs:741-752 | if it succeeds, all of that holds of the copy together; it touches only what was rebuilt; without tmux failures it succeeds exactly when every zoomed window has an active pane and every program to be restarted can be put into a command |
| Transaction.SwitchBack | src/restore.rs:792-820 | if it reports success, every ordinary terminal still attached is back on the session it was on |
| Transaction.KillCreated | src/restore.rs:821-828 | if it reports success, no recorded new session is left, and no old session or terminal was touched |
| Transaction.RenameBack | src/restore.rs:829-843 | if it reports success, every old session has its own name again; without tmux failures it does exactly when a session left over has taken no old name, and then only that name stays temporary |
| Transaction.CopySurvives | src/restore.rs:771-784 | killing a session that is not part of the copy removes no list and no window of the copy |
| Transaction.Rollback | src/restore.rs:791-848 | a rollback reported complete restored the old sessions exactly; without tmux failures it is complete exactly when a session left over carries no old session's name, and otherwise all but that session are back; a session left over stays as it is |
| Transaction.Commit | src/restore.rs:764-790 | while backups are killed, with their lists and windows, the restored state stays whole at every step, and exactly the backups that survive have a warning |
| Transaction.ApplyInner | src/restore.rs:672-850 | at every step the old or the restored state is complete; success is the restored state with its properties, programs, titles and selections, told through a connection attached to its first session, backups that were warned about and nothing else, with all terminals accounted for on the sessions that belong to them; a complete rollback is the old state, names and terminals included; a session is left over exactly when a `move-window` failed; without tmux failures success, what is left over and whether the rollback completes are decided by the planned snapshot and the server's `base-index` and names |
| Snapshots.ValidateSnapshot | src/model.rs:172-200 | passes exactly the snapshots with a valid state whose hash and id are those of the state |
| Snapshots.ValidateCheckpoint | src/model.rs:683-712 | passes exactly the checkpoints with distinct panes whose hash is that of the panes |
| Snapshots.CheckpointPanes | src/model.rs:726-737 | a checkpoint has one entry for every pane, in order, with its id and what it runs |
| Snapshots.Capture | src/model.rs:662-681 | a checkpoint of a state is valid exactly when the state's panes are distinct, and describes them |
| Snapshots.CheckpointEligibility | src/restore.rs:250-304 | accepts exactly the valid checkpoints of this snapshot, structure, socket, generation and pane set |
| Snapshots.SameStructureIsEligible | src/restore.rs:242-304 | a checkpoint captured from any state with the snapshot's structure, on its server, is eligible for it |
| Snapshots.PaneTestIsRedundant | src/restore.rs:272-302 | for a checkpoint whose fields are what it claims, the structural hash already decides the pane set |
| Store.SnapshotStore.LoadCurrent | src/storage.rs:338-347 | gives the valid body the pointer stands for, or fails if there is none |
| Store.SnapshotStore.Load | src/storage.rs:349-365 | a prefix finds a snapshot if and, failures apart, only if it is the start of exactly one file name and that file is valid; none and several are told apart |
| Store.SnapshotStore.Commit | src/storage.rs:228-296 | from any disk whatever, success with `set_current` leaves a current that loads with the committed origin and structure; nothing is written when the current already has them; every crash point is the old disk, the body, or body and pointer |
| Store.CommittingIsSound | src/storage.rs:272-291 | no prefix of a commit leaves a current pointer without its body |
| Store.CommittingAgrees | src/storage.rs:241-256 | no prefix of a commit of a new id makes the sidecar claim something about the wrong snapshot |
| Store.SnapshotStore.Entries | src/storage.rs:481-526 | lists, newest first and once each, only files whose name is a timed id and matches their contents, and all of them when no read fails |
| Store.Decide | src/storage.rs:566-602 | the loops over the listing compute the ids to keep and the expired safety marks that the policy defines |
| Store.SnapshotStore.Prune | src/storage.rs:562-622 | removes exactly the files and marks the policy gives up, nothing at all with a bad pointer, and at no crash point anything that is to be kept; without failures it succeeds exactly when no mark is to be removed twice |
| Store.NewMarkSurvives | src/main.rs:554-556 | a new snapshot with a safety mark survives the prune that follows, and so does its mark, unless as many marked files as are to be kept are listed before it |
| Store.PruningKeepsCurrent | src/storage.rs:584-588 | no prefix of a prune changes what the current pointer stands for |
| Store.SnapshotStore.Pin | src/storage.rs:528-532 | pins the id of a stored, valid snapshot and changes nothing else |
| Store.SnapshotStore.Unpin | src/storage.rs:534-542 | unpins the id of a stored, valid snapshot and changes nothing else, also when it fails |
| Store.SnapshotStore.MarkSafety | src/storage.rs:548-552 | marks the id of a stored, valid snapshot and changes nothing else |
| Store.SnapshotStore.ReadCheckpoint | src/storage.rs:631-644 | tells a missing sidecar from an unusable one and returns only valid ones |
| Store.SnapshotStore.WriteCheckpoint | src/storage.rs:654-660 | only valid checkpoints ever reach the disk |
| Store.SnapshotStore.IsEmpty | src/storage.rs:197-202 | a store with bodies but no pointer is not empty |
| Store.CommittingIsAStep | src/storage.rs:276-291 | every commit is a commit step of the retention histories |
| Store.PruningIsAStep | src/storage.rs:562-622 | every prune, also one that stopped half way, is a prune step of the retention histories |
| Store.DoomedIsExpendable | src/storage.rs:603-614 | whichever of the files a prune removes are gone, what was promised for an hour or a day is still there, whatever its clock and policy |
| Store.RetainsNewest | src/storage.rs:589-602 | the newest snapshot a store has written in an hour or on a day is on its disk while it is young enough |
| Retention.NewestOfHourKept | src/storage.rs:590-597 | for every listed file young enough for the hourly window, one of its hour that is not older is kept |
| Retention.NewestOfDayKept | src/storage.rs:598-600 | the same for the day, whether its newest file is in the hourly or in the daily window |
| Retention.KeepExactly | src/storage.rs:571-602 | an id is kept exactly for one of these reasons: pinned or current; among the newest; marked, with fewer marked files before it than are to be kept; the first unprotected file of its hour, or of its day, in that window |
| Retention.ExpiredExactly | src/storage.rs:571-580 | a safety mark expires exactly when as many marked files as are to be kept are listed before one of its files |
| Retention.KeepBound | src/storage.rs:562-602 | at most recent + safety_snapshots + pins + 1 + (24 hourly_days + 1) + (daily_days - hourly_days + 1) ids are kept, with nothing stamped after the clock |
| Retention.PruneBound | src/storage.rs:562-622 | the same bound on files, one to an id; current, pinned, the newest and the newest safety snapshots are always kept |
| Retention.PruneTwice | src/storage.rs:571-622 | a second prune at the same time expires no mark, and removes nothing if and only if no id was kept for a safety mark it also lost |
| Retention.PruneIsIdempotent | src/storage.rs:562-622 | with one file to an id, a second prune removes nothing |
| Retention.TwoFilesOfOneId | src/storage.rs:571-580 | with both a plain and a compressed file of one id, a second prune can remove both |
| Retention.ExpiredTwiceExactly | src/storage.rs:571-580 | a safety mark is to be removed twice exactly when a marked id has two files and enough marked files are listed before the first |
| Retention.OneMarkTwoFiles | src/storage.rs:615-617 | with both a plain and a compressed file of one expired id the mark is to be removed twice |
| RetentionRuns.RunRetains | src/storage.rs:562-622 | through every history of commits, pins, marks, prunes and crashes, each committed time inside a window has a stored file of its hour or day that is not older |
| RetentionRuns.NewestSurvives | src/storage.rs:589-602 | the newest snapshot of an hour survives while it is in the hourly window, and the newest of a day while it is in the daily one, including the hand-over |
| Saving.EligibleExactlyWithSocket | src/daemon.rs:666-676 | of the sidecars a save writes for the current snapshot, a restore accepts exactly those of captures with a socket identity |
| Saving.RefreshIfDue | src/daemon.rs:685-733 | failures apart, a refresh is put off exactly when the sidecar is usable, for this snapshot, not from the future, and younger than the interval |
| Saving.Refresh | src/daemon.rs:735-755 | after success the sidecar is for the current snapshot and says what its panes run now, with a new time if there was none, it was for another or from the future; what was written agrees with the current snapshot, and nothing else changed |
| Saving.SaveCaptured | src/daemon.rs:546-648 | each answer tells what is on disk: a new snapshot is committed, current and pruned after, with a sidecar of what runs; otherwise nothing but the sidecar changed, that is for the current snapshot and says what runs or is not yet due, and while it is not due it is left alone; without failures the three answers are given exactly when they should be, and an orderly store is always saved to; every crash point is sound and agrees |
| Saving.SaveChanged | src/daemon.rs:592-647 | a changed structure or server becomes current under the new id, an unchanged one does not, and the sidecar follows; a sidecar is lost only by a failure |
| Saving.Save | src/main.rs:711-811 | the same for the command line: what is on disk is the commit, the pin if asked for and the prune, or the pin alone; a snapshot is written exactly under a label or when the current one says something else; the sidecar says what runs; `--if-empty` writes only into a store without history |
| Saving.SafetySave | src/main.rs:538-556 | the safety snapshot of a restore never becomes current and never changes what is; on success some disk held it with its mark, the prune that followed is the whole difference, and it is still there and marked unless as many marked files as are to be kept are listed before it; without failures it succeeds on an orderly store |
| Saving.Turns | src/daemon.rs:523-648 | over any sequence of autosaves, saves, restores and pins with new ids, each stopping anywhere: the store stays sound, a sidecar for the current id stays eligible, and the newest snapshot written in an hour or on a day is on disk while it is young enough for every policy used |
| IdentityCache.Directory.CachedIdentity | src/storage.rs:433-470 | an id from the cache or the file is one the file's body had during the call, whatever others do between stat, read and restat; alone, it is what reading gives |
| IdentityCache.Directory.Scan | src/storage.rs:481-526 | every listed id was in its file during the scan, and with nobody else at work exactly the recognised files are listed |
| IdentityCache.ScanIsRecognised | src/storage.rs:478-526 | a scan through the cache with nobody else at work is the listing prune is proved against |
| Publication.CurrentNeverGoesBack | src/storage.rs:723-740 | over every interleaving of savers, restores and crashes the version shown by the current snapshot never decreases, has a body, and is never newer than the server |
| Publication.StepOrderly | src/daemon.rs:531-544 | every single step keeps what the lock holder captured at least as new as what is published |
| Publication.EarlyCaptureGoesBack | src/main.rs:715-718 | if savers captured before they took the lock, there would be a run in which current goes backwards |
| Lifecycle.LifecycleState.Reserve | src/daemon_control.rs:380-401 | the first reservation succeeds, and every later one is refused with the pending action |
| Lifecycle.LifecycleDelivery.Send | src/daemon_control.rs:418-439 | an action is sent the first time only |
| Lifecycle.LifecycleDelivery.Deliver | src/daemon_control.rs:423-439 | delivering and then dropping sends once |
| Lifecycle.HandleRequest | src/daemon_control.rs:545-599 | however a request ends, the action it reserved is sent once, and one it did not reserve is not sent; its client sees the response that belongs to its message or none; what it does is a schedule of its events in the state machine |
| Lifecycle.ActionAtMostOnce | src/daemon_control.rs:374-439 | over every schedule at most one action is sent, and whatever clients saw names it |
| Lifecycle.SentWhenTheTaskEnds | src/daemon_control.rs:423-439 | the moment the reserving task ends, in any way and whether or not it had delivered, its action has been sent once |
| Lifecycle.AcknowledgedExactlyOnce | src/daemon_control.rs:414-439 | an action some client saw acknowledged is what the daemon receives, exactly once, across endpoint failures and rebinds |
| Lifecycle.LaterRequestsAreRefused | src/daemon_control.rs:584-593 | after one reservation every later stop or reload is refused, naming the first |
| Lifecycle.ControlServer.NextRequest | src/daemon_control.rs:185-234 | the first action that arrives is returned whatever happens to the endpoint meanwhile, and the endpoint is then bound exactly if it did not fail or was bound again since |
| Lifecycle.ControlServer.ScheduleRetry | src/daemon_control.rs:245-248 | the delay before the next bind is the first delay doubled with every failure, up to the maximum |
| Lifecycle.FinishStartup | src/daemon.rs:198-216 | startup always runs to its end, and the first action requested meanwhile is the one that decides the exit |
| Layout.ParserIsExact | src/restore.rs:518-567 | a text is the printed form of a tree with 32-bit numbers and at least two children to a container exactly when the parser reads all of it as that tree |
| Layout.ReadCellFound | src/restore.rs:518-567 | whatever the parser reads is a valid tree, printed there |
| Layout.ReadCellPrinted | src/restore.rs:518-567 | every valid printed tree is read back, whatever follows it |
| Layout.OneTree | src/restore.rs:518-567 | no text is two trees |
| Layout.LayoutParser.Number | src/restore.rs:569-580 | the digit loop reads the longest run of digits and refuses none or too large a number |
| Layout.LayoutParser.ParseCell | src/restore.rs:518-567 | the recursive parser terminates, ends where the tree ends, and counts its leaves |
| Layout.ComputeChecksum | src/restore.rs:506-510 | the loop computes the 16-bit rotate-and-add checksum |
| Layout.KnownLayout | src/model.rs:983 | `b25d,80x24,0,0,0` carries its checksum and is accepted for one pane |
| Layout.ChecksumSeesOneByte | src/restore.rs:506-510 | changing any one byte changes the checksum |
| Layout.ValidateLayout | src/restore.rs:468-504 | accepts exactly the known names and the checksummed valid trees with the expected number of panes |
| Layout.RenderedIsOk | src/restore.rs:468-504 | every valid tree, printed behind its checksum, is accepted for its number of leaves |
| Layout.CorruptionIsRefused | src/restore.rs:485-491 | a layout with one byte of its tree changed is refused |
| CaptureRecord.EscapeIsEncode | src/tmux/capture.rs:298-306 | the five substitutions in order are the encoding of every byte by itself |
| CaptureRecord.EncodedIsPlain | src/tmux/capture.rs:298-306 | an encoded field has no separator, tab or line break in it |
| CaptureRecord.PercentDecode | src/tmux/capture.rs:533-550 | the index loop decodes, and fails exactly on truncated or malformed escapes |
| CaptureRecord.DecodeEncoded | src/tmux/capture.rs:533-550 | every byte string survives encoding and decoding |
| CaptureRecord.RecordRoundTrip | src/tmux/capture.rs:527-531 | splitting and decoding a printed record gives back exactly its fields |
| CaptureRecord.TableRoundTrip | src/tmux/control.rs:553-559 | a whole table of records survives being printed as lines, cut into lines and parsed |
| Bytes.SplitRendered | src/tmux/control.rs:553-559 | cutting output into lines is the inverse of ending every line with a line break, also for none and for empty lines |
| Bytes.JoinedSplit | src/tmux/capture.rs:528-530 | joining what was cut at a separator gives the text back |
| Bytes.IntegerRoundTrip | src/tmux/control.rs:538-545 | every integer is read back from its digits if it is in the range of the type, and refused otherwise |
| ControlStream.HeaderRoundTrip | src/tmux/control.rs:523-547 | a well-formed block header is read back as its flags |
| ControlStream.PrintedHeaderIsRead | src/tmux/control.rs:523-547 | a header printed from a time, a number and flags in their ranges gives those flags |
| ControlStream.NotificationRoundTrip | src/tmux/control.rs:506-516 | every notification is read back as what it was, and exactly the lines that begin with a percent sign are notifications |
| ControlStream.DetailIsTheLines | src/tmux/control.rs:380-404 | the text of a failed command is the lines of its block, which can be cut out of it again, or the closing line if there is no text |
| ControlStream.ControlClient.NextAnswer | src/tmux/control.rs:341-378 | the loops read over notifications and hook blocks up to the next answering block, for any stream of lines |
| ControlStream.ControlClient.ExecuteBlocks | src/tmux/control.rs:330-420 | for any stream of lines, malformed ones included, the nested loops return, record, consume and give up exactly what the reading functions say |
| ControlStream.ExecuteSucceeds | src/tmux/control.rs:330-420 | when every command succeeds, the call returns exactly their outputs among hooks and notifications, and reads nothing further |
| ControlStream.ExecuteFails | src/tmux/control.rs:380-404 | a failure is reported at its step with the stream read up to its block, and the client is given up exactly when it was not the last command |
| ControlStream.SessionIsAligned | src/tmux/control.rs:330-427 | over every run of calls each one comes to its own outputs or its own failure, up to the one that gives the client up |
| OneShot.ParseOneShotOutput | src/tmux/control.rs:178-246 | for any output, the nested loops collect the blocks and errors that the parsing function defines, or fail as it does |
| OneShot.ParsePrinted | src/tmux/control.rs:178-246 | of what a client prints the i-th complete block is the i-th block, the i-th error block is the i-th error, with its text and the number of complete blocks before it, and the exit line is seen exactly if it is there |
| OneShot.OutcomeIs | src/tmux/control.rs:105-153 | the blocks are returned exactly when the client exited, printed at least as many complete ones as there are commands, and either reported success or printed an error block; too few with an error name the first one, and no exit line means the client is unavailable |
| OneShot.UnfinishedIsUnavailable | src/tmux/control.rs:184-226 | output that ends, or an exit line that comes, in the middle of a block means the client is unavailable |
| OneShot.StrayLineIsRefused | src/tmux/control.rs:230-237 | a line between blocks that is no notification is an error |
| OneShot.SelectCaptureBlocks | src/tmux/capture.rs:97-133 | the loops pick the first block of each kind in order, and an empty block only for want of client records |
| OneShot.NoiseIsFiltered | src/tmux/capture.rs:97-133 | blocks of hooks that are empty or not wholly of one kind leave no trace in what is selected |
| OneShot.MissingKindIsRefused | src/tmux/capture.rs:97-133 | without a block that is wholly of a kind of record nothing is selected |
| OneShot.MissingClientsAreRefused | src/tmux/capture.rs:97-133 | without a block of client records and without an empty one nothing is selected |
| OneShot.CaptureSeesTheRequested | src/tmux/control.rs:105-153 | from the printed bytes to the selected records: hook errors, hook blocks and notifications, mixed in anyhow, leave exactly the requested lines in order; the capture fails only when the client reports failure and printed no error block |

## Left out

- Real processes, sockets, fsync, zstd, JSON, base64 and BLAKE3: external libraries; files are values, and a write is one step.
- Command text, quoting and the process supervisor: they are read by tmux's lexer and by the shell.
- How tmux applies layouts, zoom, titles and window selection: what each window, pane and session of the copy was told is recorded (`looks`), not the geometry or focus that tmux makes of it.
- `/proc`, and the questions for the host name, the user, the directories and the default shell: their answers are parameters.
- Where the first window of a new session, which only holds its place, is started: it is killed before the copy stands.
- Capturing: building a state from parsed records; only the records themselves and their transport are modelled.
- Hooks, the poll and debounce timers, the tmux-resurrect import, listing and printing: mostly single checks that end in validation.
- The daemon lock and the restore report files: nothing else here depends on them.
- Stack depth: the layout parser recurses without a bound in the program too.
- Store.SnapshotStore.Load: whether a file name starts with a given text is a parameter, because ids are values here and not text.
- Store.SnapshotStore.LoadPath: a body is already parsed; decompression and JSON are part of what makes it readable or not.
- Store.Decide: the membership of pins and safety marks is read once for the whole run, where the program asks the file system for each entry.
- IdentityCache.Directory.CachedIdentity: two versions of a file never share a fingerprint, so changes that a file system's clock cannot tell apart are not modelled.
- Lifecycle.HandleRequest: other tasks do not run inside the method; every interleaving is in the state machine below it.
- Lifecycle.ControlServer.NextRequest: waiting is a list of wake-ups in the order they come.
- ControlStream.ControlClient.ExecuteBlocks: the lines the server will send are given in advance, and lossy text conversion of error messages is left out.
- Layout.LayoutParser.ParseCell: error messages and byte positions in them are left out.
- Preflight.Preflight: the allowlist is a set of names; what base64 text decodes to, and the lossy text of a path, are given with it.
- ClientSwitching.SwitchClients: the terminal device in the report is left out; tmux's own memory of a last session is the order in which a terminal was sent to sessions (`visits`).
- Preflight.Planned: the plan reaches the restore as a state whose panes have the planned directories and programs, where the program passes the plan along and looks each pane up.
- Saving.SaveCaptured: the times a writer reads are given to it together (`Clock`).
