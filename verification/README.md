# Denju sync engine in Dafny

A model of the parts of Denju that must not lose a user's work: the state machines that move
visible skill links, queue and upload local edits, merge concurrent heads, follow subscriptions
and replay fork history, and the journals of import, setup and account deletion. Five smaller
algorithms of the same repository are modelled beside them.

Every durable step (a database transaction, a link rename, a registry call) is one atomic step
that may work, fail, lose its reply, or be the last before the process is killed. The results are
about every such run: each method takes an arbitrary schedule of these, and an attempt that stops
anywhere leaves a state from which the next one is covered by the same contract.

Code that works by updating state is a class, or a method with the loops of the source; its
contract ties the new state to a specification, and the lemmas are about that specification.

| file | what it models |
|---|---|
| `Basics.dfy` | optional values, faults, journal states, ordered iteration |
| `PackModel.dfy`, `PackPolicy.dfy`, `PackSync.dfy` | pack apply: its effects and crash recovery, which source wins, and the apply as it runs |
| `WorkspaceModel.dfy` | one owned skill, its queue and its workspace on the registry, as events and runs |
| `SkillLifetime.dfy` | the same skill across disappearing from the account and coming back |
| `QueueChain.dfy`, `ScanLease.dfy` | the shape of the queue over runs, and several scanners under leases |
| `WorkspaceSync.dfy` | one upload with everything that can go wrong, and the drain of all queues |
| `OwnedSync.dfy` | automatic merge, settled conflicts, renames, following the registry |
| `OwnedPass.dfy` | one pass over one skill: its scan, made or missed, the uploads, the update |
| `Reconcile.dfy` | the subscription part of a sync pass |
| `ForkHistory.dfy`, `ForkPromotion.dfy` | ordering a fork's history, and replaying it to the registry |
| `ImportJournal.dfy`, `Bootstrap.dfy`, `AccountDelete.dfy` | the journaled lifecycles |
| `SseFraming.dfy`, `ReleaseManifest.dfy`, `RouteScanner.dfy`, `CatalogMerge.dfy`, `ReverseClosure.dfy` | the algorithms |

`dafny verify dfyconfig.toml` checks everything.

## Where the code does not keep a promise

These are results: each has a lemma with the input, and most an exact condition.

- A pack rollback records the path of the new identity with the revision of the old row, so it
  restores the state before the apply exactly when the two agree with the disk
  (`PlanRollbackIsExactIff`); taking a path over from a subscription does not (`TakeoverRollsBackToNothing`).
- Two touched resources under one path: the higher id wins (`RemovalHidesNewMember`, exact
  condition in `MemberVisibleIff`).
- The queue starts at the synced head only while nothing has diverged: a diverged save leaves the
  queue before the conflict is recorded, and a crash in between leaves an ordinary status
  (`DivergenceWindow`, exact condition in `StepAnchorsIff` and `AnchoredThroughoutIff`). With two
  uploaders a late mark moves the base back (`LateMarkRegresses`, exact in `MarkKeepsChainIff`).
- A scan reads its row and the queue separately: an upload in between gives the save a stale
  generation (`UploadBetweenReadsIsRefused`), a scan that outlives its unrenewed lease queues the
  same tree twice (`OutlivedLeaseForksTheChain`), and a merge queued meanwhile forks the queue even
  within the lease (`MergeBesideScanForksTheChain`). `EnqueueExtendsChainIff` has the exact
  condition for one save, `OneQueueThroughoutIff` and `AnchoredPlayIff` for whole interleavings.
- An edit made between a recorded divergence and its reconcile is never queued, and is replaced
  when another device resolves the conflict (`NewerWorkInConflictIsNotSaved`,
  `AskedTreeCanBeLost`, exact condition in `AskedTreeIsKeptIff` and `AskedTreeIsSafeIff`).
- A scan that is skipped because the lease is held, or fails on anything but validation or a
  pending rename, leaves a clean row clean, and the same pass then replaces the edited tree
  (`MissedScanCanLoseAnEdit`, `MissedScanLosesTheEdit`, exact condition in `PassOwned` and
  `SyncOwnedSkill`).
- Adopting a remote rename marks the row clean even with saves queued (`RenameKeepsChainIff`).
- A skill that disappears from the account takes its queued saves with it
  (`DisappearanceCanLoseASave`, exact condition in `NoSaveIsLostIff`).
- A renamed subscription loses the row just written for it before it is materialized, so its
  materialization can never be marked complete, and every later pass stops at recovery
  (`Reconcile.Device.SyncOne` and `SyncPass`, the `Stranded` clauses).
- A drain stops entirely at an error that is not a blocker (`DrainQueuedRevisions`).
- A fork that gains a save between promotion attempts can never be promoted under the same import
  (`ChangedForkIsRefusedIff`).
- An import whose removal of the source was cut short leaves a part of the source behind, and every
  later attempt is refused until the user moves that away (`Import`, the exact condition under which
  an undisturbed attempt succeeds).

## Model

| member | source | states |
|---|---|---|
| `PackModel.PackApplyIsAtomic` | apps/denju/src/pack_sync.rs:513-633 | however an apply is cut short, and however many recoveries are cut short after it: once no journal is left, rows, recorded conflicts and every link are together unchanged, together rolled back, or together in the new state; before that the rows are the old ones and only journaled links may be astray |
| `PackModel.RollbackIsExactIff` | apps/denju/src/pack_sync.rs:516-532 | rolling back restores the state before the apply exactly when every journaled entry that has the last word on its path records what the link showed |
| `PackModel.ReplayIsIdentityIff` | apps/denju/src/pack_sync.rs:48-73 | replaying recorded links changes nothing exactly when whatever they record last for a path is what is there |
| `PackModel.PointForgets` | apps/denju/src/pack_sync.rs:57-66 | a replay forgets what the links it rewrites showed, so interrupted replays do not matter |
| `PackModel.ShownIffUncontested` | apps/denju/src/pack_sync.rs:551-612 | an entry is what its path shows after the switch loop exactly when no later entry writes the path with another target |
| `PackModel.ApplyOutcome` | apps/denju/src/pack_sync.rs:541-633 | the three ways one apply ends: all committed, all undone, or a journal left that the rest agrees with |
| `PackModel.BootOutcome` | apps/denju/src/pack_sync.rs:48-73 | one start-up recovery of an interrupted apply finishes the rollback or leaves the journal in charge |
| `PackModel.RecoveryOutcome` | apps/denju/src/pack_sync.rs:48-73 | the same over any number of starts, each cut short or not |
| `PackPolicy.StrongestAuthorityDecides` | crates/denju-sync/src/lib.rs:56-92 | only sources of the strongest kind are consulted; they conflict exactly when two of them disagree, whatever weaker ones want |
| `PackPolicy.ResolveIgnoresOrder` | crates/denju-sync/src/lib.rs:56-92 | the verdict depends on which sources exist, not on the order they are listed in |
| `PackPolicy.CommittedRows` | apps/denju/src/pack_sync.rs:429-471 | committed pack rows have distinct ids, none of a resource a visible subscription or workspace owns; one per wanted member, and the old row per preserved conflict |
| `PackPolicy.MemberVisibleIff` | apps/denju/src/pack_sync.rs:548-612 | a wanted member is committed at its new revision, and shown exactly when no other touched resource is journaled under its path (of higher id, for a staged member) |
| `PackPolicy.RemovalHidesNewMember` | apps/denju/src/pack_sync.rs:551-612 | a concrete apply that removes one resource and adds another of lower id under the same path: the new member is committed and its link is gone |
| `PackPolicy.PlanRollbackIsExactIff` | apps/denju/src/pack_sync.rs:513-541 | in rows and links: a rolled-back apply changes nothing exactly when, for each touched resource journaled last under its new path, the link there led to the revision of its pack row, or nowhere if it had none |
| `PackPolicy.ConflictIsIsolated` | apps/denju/src/pack_sync.rs:700-717 | a conflicted resource no local source owns keeps exactly its row, or has none if it had none, and its link does not move |
| `PackPolicy.TeamAssignmentWins` | apps/denju/src/pack_sync.rs:219-299 | an agreed, available team assignment is what is committed after refresh and apply, whatever weaker sources ask for; it hides them, and is what the link shows exactly when no other touched resource takes the path |
| `PackPolicy.CatalogIff` | apps/denju/src/pack_sync.rs:219-280 | from the requirements alone: a refresh wants a resource exactly when the packs decide about it (a team has it, or no subscription or workspace does), those that count agree, and the first of them by source id can be downloaded, and then at that payload; it is in conflict exactly when those that count disagree |
| `PackPolicy.SuppressedIff` | apps/denju/src/pack_sync.rs:219-299 | a resource the packs disagree about keeps the suppressions it had; any other weaker source is hidden exactly when a team has the resource |
| `PackPolicy.AgreedPackIsInstalled` | apps/denju/src/pack_sync.rs:219-646 | an agreed, available pack, a team's or with nothing stronger a personal one, is what is committed after refresh and apply, field by field, and what the link shows exactly when no other touched resource takes the path |
| `PackPolicy.ReleasedShowsLocal` | apps/denju/src/pack_sync.rs:551-612 | a pack row that is no longer wanted is gone, and unless a later resource takes the path the link there shows the workspace's revision, else the subscription's, else nothing |
| `PackPolicy.ConflictFreezesSuppressions` | apps/denju/src/pack_sync.rs:281-299 | a fresh conflict leaves the suppressions of its resource as they were |
| `PackPolicy.TakeoverRollsBackToNothing` | apps/denju/src/pack_sync.rs:516-532 | a concrete apply that takes a path over from a subscription and whose rollback leaves no link there |
| `PackPolicy.RefreshMatches` | apps/denju/src/pack_sync.rs:219-299 | the resolved maps and suppression lists of the loop are the refreshed catalog and sources |
| `PackSync.Device.RefreshCatalog` | apps/denju/src/pack_sync.rs:75-300 | computes the refreshed catalog and suppressions from the requirements and the local sources, which `CatalogIff` and `SuppressedIff` describe |
| `PackSync.Device.ResolveAll` | apps/denju/src/pack_sync.rs:219-280 | which members are wanted and at which payload, which conflict, and which weaker sources a team assignment hides, for every candidate and whichever kind won |
| `PackSync.Device.ReconcileSuppressions` | crates/denju-local/src/desired_db.rs:23-75 | after the deletes and inserts a preserved resource is suppressed exactly if it was, any other exactly if that was requested |
| `PackSync.Device.CollectCandidates` | apps/denju/src/pack_sync.rs:85-218 | every requirement's members, grouped by resource in requirement order |
| `PackSync.Device.StageMembers` | apps/denju/src/pack_sync.rs:348-428 | stages exactly the wanted members whose link is not already right, and touches nothing else; afterwards every wanted generation is here |
| `PackSync.Device.DesiredRecords` | apps/denju/src/pack_sync.rs:429-447 | the rows to commit: wanted members, then preserved conflicts |
| `PackSync.Device.PreserveConflictedExisting` | apps/denju/src/pack_sync.rs:700-717 | appends exactly the existing rows of conflicted resources that no local source owns |
| `PackSync.Device.JournalStates` | apps/denju/src/pack_sync.rs:513-541 | old and new link of each touched resource, under the new path |
| `PackSync.Device.SwitchOne` | apps/denju/src/pack_sync.rs:551-612 | moves one link to its new revision, its local fallback, or nothing; a quarantined revision that loses its link has been copied aside first |
| `PackSync.Device.SwitchAll` | apps/denju/src/pack_sync.rs:541-626 | journals, then moves links in order; a failed move rolls back, a kill leaves the journal |
| `PackSync.Device.RollBack` | apps/denju/src/pack_sync.rs:613-626 | restores the recorded links and only then drops the journal |
| `PackSync.Device.ApplyPackOnlyState` | apps/denju/src/pack_sync.rs:324-646 | every run is one of the modelled runs, and a failure-free one commits; then every wanted generation is here, and every quarantined revision given up has been copied aside |
| `PackSync.Device.RecoverIncompleteApply` | apps/denju/src/pack_sync.rs:48-73 | replays the journals oldest first; success means none is left |
| `PackSync.Device.ApplyAcrossRestarts` | apps/denju/src/pack_sync.rs:48-73 | an apply followed by any restarts ends unchanged, rolled back or committed, or still interrupted |
| `WorkspaceModel.PrepareEvolves` | crates/denju-registry/src/workspace.rs:54-370 | preparing a revision keeps every stored revision, past head and finished operation |
| `WorkspaceModel.CommitEvolves` | crates/denju-registry/src/workspace.rs:371-830 | and so does committing one, whether it advances the head or is kept detached |
| `WorkspaceModel.NoSaveIsLost` | apps/denju/src/workspace.rs:732-853 | while the skill stays on the account: over every run of edits, scans, pauses, uploads, divergences, merges, crashes and foreign commits, each enqueued revision stays recorded and is queued, or on the registry's chain, or stored there detached |
| `WorkspaceModel.StepLosesNothing` | apps/denju/src/workspace.rs:577-611 | no single step of a listed skill loses a save, forgets a record or takes back what the registry has |
| `WorkspaceModel.KeptForGood` | crates/denju-registry/src/workspace.rs:371-830 | what the registry keeps it keeps, whatever other devices do |
| `SkillLifetime.NoSaveIsLostIff` | apps/denju/src/public.rs:669-694 | over every run in which the skill disappears from the account and comes back any number of times: every save ever recorded is queued or kept by the registry all along exactly when each disappearance finds nothing queued that the registry does not keep |
| `SkillLifetime.DisappearanceLosesNothingIff` | crates/denju-local/src/db/schema.rs:130-141 | one disappearance, which deletes the row and all its records, loses nothing exactly when the registry already keeps every queued save |
| `SkillLifetime.DisappearanceCanLoseASave` | apps/denju/src/public.rs:669-694 | a concrete run: a save made offline, the disappearance, the skill listed again; the save is neither recorded nor on the registry |
| `QueueChain.QueueStaysChained` | apps/denju/src/workspace.rs:577-611 | over every run in which one uploader works the front of the queue and renames wait for it to drain, the queue is one chain with single parents and consecutive generations, ending at the local head |
| `QueueChain.StepAnchorsIff` | apps/denju/src/workspace.rs:563-578 | one orderly step, exactly: a chain that starts at the synced head and base generation stays one unless a diverged save is taken off or a revision of two parents is queued, and any other becomes one only by marking its front synced or by a new baseline |
| `QueueChain.AnchoredThroughoutIff` | apps/denju/src/workspace.rs:563-611 | over a whole run, exactly: the chain starts at the synced head all along if and only if no save is taken off after a divergence and no merge is queued |
| `QueueChain.StepKeepsOrder` | apps/denju/src/workspace.rs:577-611 | every orderly step keeps the queue one chain that ends at the local head, wherever it starts |
| `QueueChain.MarkKeepsChainIff` | crates/denju-local/src/workspace_db.rs:770-815 | with any number of uploaders, exactly which marks keep the chain: that of the front of the queue, a repeat of the last one, or an old one while the queue stands on a diverged save or a merge |
| `QueueChain.ChainIsOrdered` | crates/denju-local/src/workspace_db.rs:706-735 | queue order is generation order, so the query lists the chain from its start |
| `QueueChain.SaveIsNextLink` | apps/denju/src/workspace.rs:473-611 | what a scan queues continues the last queued save, or the local head at the base generation, or merges two recorded heads |
| `QueueChain.CaptureOutcome` | apps/denju/src/workspace.rs:443-471 | a scan leaves the row alone, settles a pause, or queues its save |
| `QueueChain.StepKeepsChain` | apps/denju/src/workspace.rs:577-611 | every orderly step keeps the chain |
| `QueueChain.SyncedKeepsChain` | crates/denju-local/src/workspace_db.rs:770-815 | marking the front synced moves the base onto it and leaves the rest a chain |
| `QueueChain.DetachedKeepsChain` | crates/denju-local/src/workspace_db.rs:817-835 | taking the front off after a divergence leaves a chain that stands on the detached head |
| `QueueChain.UploadAdvances` | crates/denju-registry/src/workspace.rs:371-830 | a save whose head and generation are the registry's becomes its head in three steps |
| `QueueChain.UploadDiverges` | crates/denju-registry/src/workspace.rs:371-830 | one whose head has been passed is stored detached and opens a conflict of exactly the registry's head and it |
| `QueueChain.DivergenceWindow` | apps/denju/src/workspace.rs:829-850 | a concrete run with a crash between taking a diverged save off the queue and recording the conflict: an ordinary status, and a chain not anchored at the synced head |
| `QueueChain.LateMarkRegresses` | crates/denju-local/src/workspace_db.rs:770-815 | a concrete run with two uploaders in which the slower mark moves the base back behind the registry, which then refuses the next save |
| `ScanLease.LeaseExcludes` | crates/denju-local/src/db.rs:721-746 | at most one scan within its lease is under way, over every interleaving |
| `ScanLease.EnqueueExtendsChainIff` | apps/denju/src/workspace.rs:563-611 | any scan, within its lease or not: its save keeps the queue one chain exactly when nothing is queued any more or what it read as the newest save still is, and its tree is a new one; and keeps it on the synced head exactly when something is queued or what it read as the base still is |
| `ScanLease.OneQueueThroughoutIff` | apps/denju/src/workspace.rs:364-380 | over every interleaving, leases kept or not: the queue is one chain that repeats no tree all along exactly when every save enqueued continues it |
| `ScanLease.ScannersNeverForkTheChain` | apps/denju/src/workspace.rs:364-380 | over every interleaving of scanners, uploads, divergences, conflicts, new baselines, renames, edits and kills in which scans enqueue within their lease and no merge is queued while one within its lease has read the row: the queue is one chain that ends at the local head, and no tree is saved on top of itself |
| `ScanLease.AnchoredPlayIff` | apps/denju/src/owned_sync.rs:220-262 | in those interleavings the chain starts at the synced head all along exactly when nothing diverges, no merge is queued, and every save that finds the queue empty was built on what is still the base |
| `ScanLease.NeighboursDiffer` | apps/denju/src/workspace.rs:443-471 | neighbours in such a queue are saves of different trees |
| `ScanLease.MergeBesideScanForksTheChain` | apps/denju/src/workspace_merge.rs:233-258 | a concrete run in which a merge is queued while a scan within its lease has read the queue, and the scan's save goes beside it |
| `ScanLease.UploadBetweenReadsIsRefused` | apps/denju/src/workspace.rs:563-578 | a concrete run in which an upload lands between the row read and the queue read, and the save is refused as out of date though no other device wrote |
| `ScanLease.OutlivedLeaseForksTheChain` | apps/denju/src/workspace.rs:364-380 | a concrete run in which a scan outlives its lease and the same tree is queued twice on one parent |
| `ScanLease.FrontShifts` | crates/denju-local/src/workspace_db.rs:770-835 | saves taken off in between only shorten the front of the queue a scan has read |
| `WorkspaceSync.Skill.CaptureOne` | apps/denju/src/workspace.rs:394-618 | the branches of one valid scan are exactly one capture step; nothing new settles a pause for validation or a rename; something new is saved on the newest queued save or the local head, or in a conflict left to the user as the merge of its heads, unless it is the tree of the record; nothing is queued while a recorded conflict is being merged |
| `WorkspaceSync.Skill.UploadOne` | apps/denju/src/workspace.rs:732-853 | whatever goes wrong, the save stays queued unchanged, or is off the queue and kept by the registry; success leaves the row synced at the registry's generation, or paused with the very conflict the registry found, recorded for the tree of the save; undisturbed, exactly when it succeeds: it, or the merge of the two heads, becomes the head; or the head has moved and it is kept beside it in a conflict of the two; or the registry had answered it before and answers the same; a refusal pauses the skill for quota or for an overtaken head, and is only reported otherwise |
| `WorkspaceSync.Skill.PrepareUpload` | apps/denju/src/workspace.rs:773-781 | stops at any refusal, lost reply or foreign revision identity, with only registry traffic and pauses done |
| `WorkspaceSync.Skill.CommitUpload` | apps/denju/src/workspace.rs:794-853 | takes the save off the queue only on a reply about that very operation and revision; success means synced, or the conflict recorded |
| `WorkspaceSync.Skill.FinishDetached` | apps/denju/src/workspace.rs:829-850 | a diverged save leaves the queue first; success means the two-headed conflict is recorded |
| `WorkspaceSync.Skill.PersistWorkspaceConflict` | apps/denju/src/workspace.rs:856-908 | only a conflict of exactly two heads is recorded, and then the skill is paused in conflict |
| `WorkspaceSync.Skill.PauseRemoteBlocker` | apps/denju/src/workspace.rs:910-954 | quota and generation refusals pause the skill, every other refusal is only reported; which code each becomes |
| `WorkspaceSync.Device.QueuedLocalRevisions` | crates/denju-local/src/workspace_db.rs:706-735 | lists each skill's queue by generation, then creation |
| `WorkspaceSync.QueryListsEachQueue` | crates/denju-local/src/workspace_db.rs:706-735 | what the query lists for a skill is that skill's own queue, whatever the others hold |
| `WorkspaceSync.QueryIsInOrder` | crates/denju-local/src/workspace_db.rs:706-735 | the rows of a skill come by generation, and those of one generation in the order they were made |
| `WorkspaceSync.QueryKeepsSaves` | crates/denju-local/src/workspace_db.rs:706-735 | the order neither drops nor invents a save |
| `WorkspaceSync.ChainIsInQueryOrder` | crates/denju-local/src/workspace_db.rs:706-735 | a chain is listed from its start |
| `WorkspaceSync.Device.DrainQueuedRevisions` | apps/denju/src/workspace.rs:705-730 | for every skill a front of its queue is uploaded and kept; it stops at its first blocker (quota, content verification, local state) without holding up the others; blockers are counted one per stopped skill; any other error ends the pass; undisturbed, queues that continue their registry's head are uploaded entirely |
| `WorkspaceSync.UnstoppedIsDrained` | apps/denju/src/workspace.rs:705-730 | a skill that did not stop has nothing left queued and every queued save is kept by the registry |
| `WorkspaceSync.StoppedKeepsTheRest` | apps/denju/src/workspace.rs:717-728 | a stopped skill keeps the rest of its chain in order behind what was uploaded |
| `WorkspaceSync.ProgressUploads` | apps/denju/src/workspace.rs:721-727 | one more upload moves a skill's front on, or stops it |
| `OwnedSync.LastTreeIsKept` | apps/denju/src/workspace.rs:577-611 | over every run, the last valid tree of a skill is the root of a stored or queued revision |
| `OwnedSync.CleanTreeIsPreservedIff` | apps/denju/src/owned_sync.rs:203-211 | a clean skill has nothing queued, and unless somebody else has the very tree, its tree is on the registry exactly when it is the last valid one |
| `OwnedSync.ReconcileWorkspaceConflict` | apps/denju/src/workspace_merge.rs:22-111 | the tree is replaced only by the merge of both heads, only if it was one of them and nothing was queued; otherwise, or when the merge needs a decision, the conflict is recorded for the user with the tree as it is; undisturbed, a clean merge does become the head of the registry, which still is in this conflict, the tree, and the baseline of a clean row |
| `OwnedSync.MergeUntouched` | apps/denju/src/workspace_merge.rs:104-110 | a clean merge becomes the registry's head and the tree, giving up only a preserved tree |
| `OwnedSync.CommitMerge` | apps/denju/src/workspace_merge.rs:199-375 | success means the merge is the registry's head, the tree is the merged one and the conflict is cleared |
| `OwnedSync.SettleMerge` | apps/denju/src/workspace_merge.rs:279-375 | the tree changes only after the registry shows the merge as its head |
| `OwnedSync.SettleResolvedConflict` | apps/denju/src/workspace_merge.rs:113-161 | a conflict resolved elsewhere is forgotten only with nothing queued and the tree it was recorded for |
| `OwnedSync.SyncOwnedSkill` | apps/denju/src/owned_sync.rs:61-327 | from any scan or none: a replaced tree was preserved with no save queued if it was the last valid one, or a conflict with a preserved tree was settled over it; without a conflict, and unless somebody else has the very tree, exactly then; a row with unfinished work keeps its tree, a clean one follows the registry; one listed conflict whose heads merge is merged |
| `OwnedPass.PassOwned` | apps/denju/src/public.rs:186-201 | one whole pass over a skill, its scan finished, unfit or missed: a tree it replaces is on the registry if it was caught; a clean row is followed all the same when the scan was missed, and its tree is then kept exactly when it had been caught, by the follow path and by the rename path; undisturbed, an edit of a clean skill becomes the registry's next head and the skill is clean on it; if another device has saved meanwhile, the two are merged in the same pass, and so is a conflict found with nothing edited |
| `OwnedPass.ScanOwned` | apps/denju/src/workspace.rs:356-386 | a finished scan whose transaction lands catches the tree; an unfit one pauses the row; a missed one (lease held, unreadable or odd file) leaves the row as it was, and then the tree is caught exactly when it was not edited |
| `OwnedPass.DrainOwned` | apps/denju/src/workspace.rs:705-730 | the uploads in between change neither the tree nor the last valid one, and record conflicts only to be merged without asking; undisturbed, a queue that continues the registry's head becomes its chain, and a save behind it is kept detached with the conflict recorded |
| `OwnedPass.CaptureCatches` | apps/denju/src/workspace.rs:443-611 | outside a conflict a finished scan leaves the tree as the last valid one, unless the table refuses an operation that is not a new one |
| `OwnedPass.MissedScanCanLoseAnEdit` | apps/denju/src/workspace.rs:642-647 | a concrete run from a clean skill: an edit, a save of another device, and the clean row followed or renamed over it without a scan; no revision has the edit |
| `OwnedPass.MissedScanLosesTheEdit` | apps/denju/src/public.rs:190-201 | a pass that misses its scan does that |
| `OwnedSync.AdoptRemoteName` | apps/denju/src/owned_sync.rs:113-187 | a remote rename replaces only a clean tree and keeps one that waits for that very name; other unfinished work is refused; undisturbed, both the clean and the waiting one succeed |
| `OwnedSync.FollowRegistry` | apps/denju/src/owned_sync.rs:188-319 | unfinished work is left alone; a clean skill takes the revision and its baseline, downloading only when needed |
| `OwnedSync.MergingTreeStaysKept` | apps/denju/src/workspace_merge.rs:104-110 | over every run, a conflict recorded to be merged without asking was recorded for a tree the registry has |
| `OwnedSync.AskedTreeIsKeptIff` | apps/denju/src/workspace_merge.rs:66-102 | a conflict left to the user, and any run after which it would be settled: unless a third revision happens to have the very tree, it is on the registry exactly when, at the time it was recorded, it was one of the two heads or saved on this device, queued or not |
| `OwnedSync.AskedTreeIsSafeIff` | apps/denju/src/workspace_merge.rs:66-102 | settling is safe after every run exactly when that held at the time, whatever was queued, if it can come to settling without such a third revision |
| `OwnedSync.AskedTreeIsKept` | apps/denju/src/workspace_merge.rs:138-161 | when it held, the tree stays on the registry whatever anybody else stores |
| `WorkspaceSync.DivergedTreeIsPreserved` | apps/denju/src/workspace.rs:841-848 | the tree of a save that diverged is on the registry when its conflict is recorded |
| `OwnedSync.AskedTreeCanBeLost` | apps/denju/src/workspace_merge.rs:138-161 | a concrete run from a clean skill: a save diverges, the user edits on before the reconcile, another device resolves the conflict, and the edit is replaced though no revision and no record has it |
| `OwnedSync.NewerWorkInConflictIsNotSaved` | apps/denju/src/workspace.rs:473-490 | an edit between a recorded divergence and its reconcile is never queued, and the conflict is then recorded for it |
| `OwnedSync.RenameKeepsChainIff` | crates/denju-local/src/workspace_db.rs:493-515 | adopting a rename keeps the queue in order exactly when nothing is queued |
| `Reconcile.Device.SyncPass` | apps/denju/src/public.rs:267-813 | every aborted pass leaves a tidy state; a completed one is settled and converged; a pass over a settled state materializes and removes nothing and changes nothing; cut anywhere, the links of owned and pack skills that no subscription row uses are as they were; a completed one leaves all rows and all links as stated field by field, and a link is gone exactly when no row left and no owned or pack skill uses its path, but for what a removed row took along |
| `Reconcile.Device.SyncUntilDone` | apps/denju/src/public.rs:163-200 | however many passes are cut short, the one that completes converges |
| `Reconcile.Device.AfterRecovery` | apps/denju/src/public.rs:285-562 | counts exactly the missing and the gone subscriptions, and leaves exactly the rows of `PassRows` and the links of `PassLinks` |
| `Reconcile.PassRows` | apps/denju/src/public.rs:267-562 | every row after a completed pass, from the registry's answer, holds and policy: taken over, shown, kept or gone |
| `Reconcile.PassLinks` | crates/denju-local/src/materialize.rs:426-463 | every link after a completed pass: shown revisions, rows left, rows gone, and the links of owned and pack skills as they were |
| `Reconcile.CutLinks` | apps/denju/src/public.rs:285-562 | a pass cut short has changed no link but at the paths of rows there were or are, and taken away some that nothing uses |
| `Reconcile.Device.ReconcileCanonicalLinks` | crates/denju-local/src/materialize.rs:426-463 | removes exactly the links that no managed skill uses; cut short, some of them |
| `Reconcile.Device.SyncAll` | apps/denju/src/public.rs:464-562 | every sent subscription is handled once: told, and shown if nothing stands in its way |
| `Reconcile.Device.SyncOne` | apps/denju/src/public.rs:464-562 | one sent subscription ends told, or shown, or in a state recovery can finish; a renamed free one strands its journal; a renamed one locked by a fork loses row and link |
| `Reconcile.Device.RemoveAll` | apps/denju/src/public.rs:428-462 | gone subscriptions lose their rows, except where policy sources disagree; links stay where a team owns them |
| `Reconcile.Device.QuarantineAll` | apps/denju/src/public.rs:325-394 | exactly the targeted held subscriptions lose their rows, and their links if they were the ones shown |
| `Reconcile.Device.Recover` | crates/denju-local/src/materialize.rs:335-425 | a pending materialization is finished, or stops before or after its link, with the journal still there |
| `Reconcile.Device.Finish` | crates/denju-local/src/desired_db.rs:321-357 | a row is marked only if it is there, wants that revision and is not suppressed |
| `Reconcile.PassConverges` | apps/denju/src/public.rs:301-324 | what was not sent is current because the materialized revision is what is advertised |
| `Reconcile.PassQuiets` | apps/denju/src/public.rs:267-562 | after a completed pass every row is one the next pass has nothing to do for |
| `Reconcile.SettledIsStill` | crates/denju-registry/src/release.rs:768-813 | against an unchanged registry a settled state is sent nothing that can be shown, and nothing to remove |
| `Reconcile.RecoveredIsTidy` | crates/denju-local/src/materialize.rs:335-425 | recovery, wherever it stops, leaves a tidy state |
| `Reconcile.SyncedIsTidy` | apps/denju/src/public.rs:464-562 | so does the handling of one subscription, wherever it stops |
| `Reconcile.DirectRevisionDoesNotMatter` | apps/denju/src/pack_sync.rs:219-299 | whether policy disagrees about a skill or a team owns it does not depend on the subscribed revision |
| `ForkHistory.OrderedHistory` | apps/denju/src/fork_ops.rs:709-735 | terminates; success is a permutation of the rows that is a single-parent chain from the upstream revision; with distinct ids it succeeds exactly when such a chain exists; in every case it is what taking the first follower again and again comes to |
| `ForkHistory.HistoryIsUnique` | apps/denju/src/fork_ops.rs:709-735 | with distinct ids there is at most one such chain |
| `ForkHistory.RepeatedIdFails` | apps/denju/src/fork_ops.rs:718-726 | two rows, one with the upstream's own id, that are a chain and are found to be one only when listed in its order |
| `ForkPromotion.Promoter.Promote` | apps/denju/src/fork_ops.rs:207-471 | success means every save is on the registry under its own operation, by whoever made it and under the name its tree declares, in order and nothing else, followed by one more revision, the last tree renamed by the user, exactly when the last save declares another name; either way the head declares the fork's; from wherever earlier attempts stopped, a failure-free attempt succeeds |
| `ForkPromotion.Promoter.Send` | apps/denju/src/fork_ops.rs:285-370 | one call prepares and commits in any state earlier attempts left, and never goes back |
| `ForkPromotion.HeldIsReplayed` | apps/denju/src/fork_ops.rs:282-471 | once all calls are committed the registry holds that chain, its head declares the fork's name, and the import named it as the promotion's head |
| `ForkPromotion.CommittedCallsReplay` | crates/denju-registry/src/workspace.rs:127-150 | a call of the committed part is answered as before and changes nothing |
| `ForkPromotion.NextCallPrepares` | apps/denju/src/fork_ops.rs:321-330 | the next call can be prepared whether or not it has been before |
| `ForkPromotion.NextCallCommits` | apps/denju/src/fork_ops.rs:336-363 | and commits as the next revision of the chain |
| `ForkPromotion.PlanIsExact` | apps/denju/src/fork_ops.rs:282-420 | the planned calls carry the saves as they are, each by its author and under the name its tree declares where that differs, the first importing under the fork's name; then, exactly when the last tree declares another name, that tree renamed, by the user, under the fork's own id |
| `ForkPromotion.PlanIsGood` | apps/denju/src/fork_ops.rs:207-282 | the plan is one chain of distinct operations whose import names its last revision |
| `ForkPromotion.InferredAuthorMadeIt` | apps/denju/src/fork_ops.rs:674-707 | an author is found exactly for revisions of this installation or user, and is the one who made it |
| `ForkPromotion.ChangedForkIsRefusedIff` | apps/denju/src/fork_ops.rs:255-280 | once the import is known, a promotion of the same fork a while later passes its first call exactly when no save has been added, renamed or not; otherwise it is refused there, for good |
| `ForkPromotion.PromotionHeadsAgreeIff` | apps/denju/src/fork_ops.rs:238-258 | two histories of a fork have the same promotion head exactly when they end in the same save |
| `ImportJournal.Device.Import` | apps/denju/src/owned.rs:38-324 | the journal only moves on; identities once recorded never change; what the program removed of the user's is in the managed copy; an undisturbed re-run completes exactly if owner and recorded identities agree and the source is gone or still what was imported |
| `ImportJournal.Device.CreateImportJournal` | apps/denju/src/owned.rs:326-421 | the journal is created only over a staged snapshot of the source |
| `ImportJournal.Device.PrepareAndCommit` | apps/denju/src/owned.rs:118-193 | whatever the registry answers, a recorded identity stays or the import is refused; what is verified is what the commit answered |
| `ImportJournal.Device.MaterializeAndSwitch` | apps/denju/src/owned.rs:206-262 | the managed copy is made from the staged snapshot, and the source must still match |
| `ImportJournal.Device.RemoveSource` | apps/denju/src/owned.rs:265-294 | the source goes only if it still is what was imported; a removal cut short leaves a part of it, and an undisturbed attempt over that is refused |
| `ImportJournal.RecordedIdentityStays` | apps/denju/src/owned.rs:529-545 | filled slots accept exactly the recorded identity |
| `Bootstrap.AtMostOneRegistration` | apps/denju/src/setup.rs:177-258 | however setup was interrupted there is at most one registration, and a recorded installation is that one |
| `Bootstrap.Device.Setup` | apps/denju/src/setup.rs:169-258 | every run keeps that; success means the recorded installation carries the ids of the one registration, at the registry already recorded or journaled, else the requested or the official one; another registry is refused exactly when it is requested, with nothing changed |
| `Bootstrap.Device.BeginBootstrap` | apps/denju/src/setup.rs:203-245 | nothing is registered before the credential and the staged journal are durable |
| `Bootstrap.Device.ResumeBootstrap` | apps/denju/src/setup.rs:476-528 | a resumed setup keeps its operation and only moves on |
| `Bootstrap.Device.Register` | apps/denju/src/setup.rs:711-725 | a repeated registration gets the ids of the first |
| `Bootstrap.Device.ActivateVerified` | apps/denju/src/setup.rs:530-581 | the installation is recorded from the journaled ids |
| `Bootstrap.Device.VerifySwitched` | apps/denju/src/setup.rs:583-634 | the journal completes only with the journaled credential in place |
| `AccountDelete.Device.DeleteAccount` | apps/denju/src/identity.rs:359-414 | every attempt, interrupted anywhere, keeps the order: registry, skills, credentials; while the account is not deleted nothing local is touched, while a skill is left no credential or record is; success means all are gone |
| `AccountDelete.Device.ResumeAccountDelete` | apps/denju/src/identity.rs:416-522 | a failed attempt keeps its operation and never moves the journal back; a failure-free one finishes |
| `AccountDelete.Device.AskRegistry` | apps/denju/src/identity.rs:431-465 | the registry's confirmation is the first deed |
| `AccountDelete.Device.ClearManaged` | apps/denju/src/public.rs:221-264 | managed skills go one by one, all of them before success |
| `AccountDelete.Device.ClearIdentity` | apps/denju/src/identity.rs:481-507 | credentials and records go only once no managed skill is left |
| `SseFraming.WaitForSyncHint` | crates/denju-client/src/lib.rs:610-643 | the buffered loop gives the answer of the unsplit stream |
| `SseFraming.HeardAnswers` | crates/denju-client/src/lib.rs:619-643 | what is heard chunk by chunk, from any buffer without a complete record, is the answer of the whole |
| `SseFraming.SplitDoesNotMatter` | crates/denju-client/src/lib.rs:619-643 | any split of the same bytes gives the same answer |
| `SseFraming.EndIsStable` | crates/denju-client/src/lib.rs:893-907 | more bytes never move the end of a complete record |
| `SseFraming.FindsTheFirstBlankLine` | crates/denju-client/src/lib.rs:893-907 | the search finds the first LF-LF or CRLF-CRLF |
| `SseFraming.AnswerStep` | crates/denju-client/src/lib.rs:622-638 | one record off the buffer is one record off the stream |
| `SseFraming.CarriageReturnsNeverEnd` | crates/denju-client/src/lib.rs:893-907 | a stream without line feeds never ends a record |
| `ReleaseManifest.ManifestRoundTrips` | apps/denju/src/upgrade.rs:648-750 | the written manifest is read back as the version and, for each asset, the digest and size its bytes verify against |
| `ReleaseManifest.ParseManifest` | apps/denju/src/upgrade.rs:648-725 | the loop reads the lines in order, refusing duplicated, unsupported or malformed ones |
| `ReleaseManifest.WriteManifest` | xtask/src/release_artifacts.rs:33-62 | writes the manifest and the checksum list of all six assets, or fails if one is missing |
| `ReleaseManifest.AcceptedHasNineLines` | apps/denju/src/upgrade.rs:648-725 | an accepted manifest has exactly nine non-blank lines |
| `ReleaseManifest.AnyOtherLineIsRejected` | apps/denju/src/upgrade.rs:648-725 | dropping, repeating or adding any non-blank line is rejected |
| `ReleaseManifest.ReorderedManifest` | apps/denju/src/upgrade.rs:648-725 | reordering lines changes nothing |
| `ReleaseManifest.SizeRoundTrips` | apps/denju/src/upgrade.rs:684-686 | a size is read back as written |
| `RouteScanner.MatchingRouteCallEnd` | xtask/src/repository_checks.rs:237-269 | finds the first place where the depth outside quoted, escape-aware text reaches zero, or shows there is none |
| `RouteScanner.ClosesOnce` | xtask/src/repository_checks.rs:237-269 | there is only one such place |
| `RouteScanner.ClosesOutsideQuotes` | xtask/src/repository_checks.rs:237-269 | it is a closing parenthesis outside quotes |
| `RouteScanner.ContainsCall` | xtask/src/repository_checks.rs:271-294 | true exactly when the name stands on its own before an opening parenthesis |
| `RouteScanner.ParseAxumRoutes` | xtask/src/repository_checks.rs:209-235 | adds exactly the routes of the source, or reports an unterminated call |
| `RouteScanner.RenderedRouterReadsBack` | xtask/src/repository_checks.rs:209-235 | a rendered router is read back as exactly the /v1/ routes it declares |
| `RouteScanner.CallsOfBody` | xtask/src/repository_checks.rs:223-230 | the calls found in a body are its handlers' verbs |
| `CatalogMerge.MergeLocalResults` | apps/denju/src/discovery.rs:411-471 | the result is strictly sorted, within its bound, and holds everything that belongs except new local records that came last and found no room |
| `CatalogMerge.RemoteResultsSurvive` | apps/denju/src/discovery.rs:430-466 | no remote result is lost, nor its stars, topics, deprecation or rank |
| `CatalogMerge.LocalRecordsOverride` | apps/denju/src/discovery.rs:430-463 | a relevant local record is the one item of its remote twin's id |
| `CatalogMerge.OthersStayOut` | apps/denju/src/discovery.rs:425-428 | a local record that does not match the query and has no twin is not shown |
| `CatalogMerge.IdsStayDistinct` | apps/denju/src/discovery.rs:429-466 | no two items of the result share an id |
| `CatalogMerge.OrderOfInputsDoesNotMatter` | apps/denju/src/discovery.rs:411-471 | with room left, or nothing cut off, the order of neither input matters |
| `CatalogMerge.OrderIsTotal` | apps/denju/src/discovery.rs:581-596 | of two items with different ids exactly one comes first |
| `CatalogMerge.OrderIsTransitive` | apps/denju/src/discovery.rs:581-596 | the order is transitive |
| `CatalogMerge.SortedIsUnique` | apps/denju/src/discovery.rs:467-470 | two sorted lists of the same items are the same |
| `ReverseClosure.Closure` | scripts/scoped_verify.py:62-71 | terminates on every graph and returns, in workspace order, exactly the packages that reach a requested one |
| `ReverseClosure.AffectedIsLeastClosed` | scripts/scoped_verify.py:62-71 | they are the least set that holds the requested ones and is closed under dependents |
| `ReverseClosure.InOrderIsExact` | scripts/scoped_verify.py:71 | the list names each included package once |
| `ReverseClosure.InOrderKeepsOrder` | scripts/scoped_verify.py:71 | in the workspace's order |
| `ReverseClosure.MakePlan` | scripts/scoped_verify.py:109-130 | unknown packages are refused; everything changed is also checked; both lists are in workspace order, each package once |

## Left out

- Message texts, source labels and lists of paths in errors and conflicts.
- The bytes of trees, snapshots and blobs, SHA-256, UUIDs and JSON: trees are opaque, and a revision id is the four things it hashes; random ids never repeat.
- User edits between a scan and the link move it authorises: the code does not exclude them, so scan and decision are one step.
- The three-way merge itself: any deterministic function of the base and the two heads.
- The capture of local-only forks: a single write with no queue.
- `resolve_with_revision`: a user command that commits a chosen tree through the same merge upload.
- Two processes applying packs at once; the pack catalog cache and the list of active sources that a refresh builds and does not use.
- Copying bytes to quarantine: only that the copy precedes the removal.
- `journaled_remove_managed_skill` is one step here; its own journal is replayed before anything else.
- Harness projections, services, keyrings, terminal prompts and the daemon's select loop: steps that may fail.
- Database rows of owned and pack skills in the subscription pass: only the paths they use, and the standing they give a subscription.
- A second sort order of equal items: ids are distinct, so a stable sort is any sort.
- The `data:` lines of an event and its JSON: any function of the record's bytes.
- The scanner's 32-bit depth counter: a source would need four billion open parentheses.
- `full_rust_reason`, `owner` and the changed-path half of `make_plan`: lookups without state.
- `install_server_fork`: local bookkeeping after the promoted chain is complete.
- PackPolicy.CatalogIff: a requirement names a skill once, and requirements have distinct source ids; both are keys of the registry's tables.
- ForkPromotion.Promoter.Promote: a renamed tree declares the new name; the rewriting of the document's name is not part of this model.
- ReleaseManifest.ManifestRoundTrips: files are shorter than 2^64 bytes, as the size field requires.
- RouteScanner.RenderedRouterReadsBack: paths and handlers are free of quotes, backslashes and parentheses, and stretches between calls of dots; the scanner promises nothing beyond that.
