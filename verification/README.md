# HelixSync, modelled and proved in Dafny

HelixSync keeps bookmarks, tabs and history in step across devices through an
encrypted operation log. This project models the logic that log depends on and
proves what it is for, as statements about every input, run or reachable state.
`dafny verify dfyconfig.toml` checks all of it.

## What is modelled

**Restore points.** The browser's bookmarks are a forest of nodes under four
built-in roots (`BookmarkForest`), with what the browser accepts as the
precondition of each operation. `Planner` is the planner, loop by loop, against
a specification of the plan; `Restore` proves that a full plan can be carried
out in order, keeps every node of the point, ends with the saved tree, and that
planning again after any prefix gives what was left. `RestoreRun` carries a plan
into the browser slice by slice, each slice with its own batches of moves, and
`RestoreOrder` says exactly when the siblings then stand in order. `RestoreCrash`
is a run cut short, with positions recorded whose moves were not made, and
`RestoreJob` any number of such runs, what they lose and how they end; `RestoreCase`
works out small restores. `Snapshot` is the capture of the current
tree with its position normalization (`Positions`), `PointFormat` the checks on a
point, and `Undo` proves that a capture undoes a restore. `PartialScope` and
`FolderDeletes` say exactly when the restore of one folder gets to its end and
exactly which nodes it loses.

**Ordering.** `FractionalIndex` is the search for a key between two others, over
the 62 digits, with exactly the bounds it can separate. `MoveBatch` is the run of
remote moves over cached sibling orders (`Siblings`), against the browser's own
index rule, `MoveOrder` exactly when such a run leaves siblings in order, `MoveRun`
the same over several batches with nodes created, recorded and removed between
them, and `MoveClear` a condition for it that is read off the moves.

**Replication.** `Conflict` is field arbitration, `LivenessOrder` the exact
conditions under which liveness depends on delivery order, `ServerMerge` the
server's merge and its agreement with the clients, `Uuids` the agreement of the
two id orders. `Download` is the page loop and its retry, `UploadQueue` one upload
cycle over the stored queue, `UploadBudget` exactly what such a cycle can leave
behind, and `Replication` the whole protocol as a state machine with convergence
over every schedule. `Materialize` creates bookmarks whose parents may arrive
later.

**Bulk import.** `BulkImport` cuts the history into segments and chunks and
resumes by skipping, over any schedule of runs, with a crash possible around
every upload.

**Server state.** `RateLimiter`, `RevocationCache` and `RestoreQuota` are the
in-memory limiter, the revocation caches under any interleaving, and the quota
on stored restore points.

## How to read it

- Restored trees are compared as forests: kind, title, URL, parent and position
  of each node. Object ids are numbers, of which the roots have the smallest.
- A restore plan is proved for points that are valid, have folders as parents,
  list an object under the kind it has in the browser, and keep what hangs off a
  policy's folder with the policy (`Restore.Compatible`). The checks on a point
  do not look at whether a parent is a folder
  (`extension/src/restore-points/format.ts:154`); `Undo.CaptureIsFaithful` proves
  that captures satisfy this.
- In `Replication` a local change and the record of its field state are one step,
  the server log is a sequence without repetitions, and `known` and `dropped` are
  bookkeeping of the model. Liveness is left to `LivenessOrder`.
- Time in the limiter and the revocation cache is a real number, strictly
  increasing from step to step in the latter, as monotonic stamps are.
- In `BulkImport` the history, the segment cutting and the size of an encrypted
  segment are the same in every run, which is what resuming by count relies on.

## Where the code and its documentation disagree

- A comment in `extension/src/util/fractional-index.ts:30` says that both bounds
  can only have ended together if they are equal. They also do when the upper one
  is the lower one followed by zeros, and the key returned is then above both: for
  the example position `"a0"` of `docs/protocol.md:537-538`, with `"a"` below it,
  it is `"a0V"` (`FractionalIndex.BetweenCrowdedBounds`). No key that can serve as
  a bound again lies between such bounds
  (`FractionalIndex.CrowdedHoldsNoUsableKey`).
- `docs/protocol.md:499-506` promises a deterministic winner. For liveness there
  is none when an object was deleted, edited above every delete and moved above
  everything: the record then depends on the order of delivery. In every other
  case there is one (`LivenessOrder.StableUnlessContested`).
- `docs/protocol.md:1213-1214` says that a node the point keeps is moved out of a
  folder that is about to be deleted. This holds for a restore of everything; an
  exact restore of one folder loses nodes the point keeps elsewhere, and a restore
  of one folder may plan a move the browser refuses. Exactly when is stated by
  `FolderDeletes.ExactRestoreOfAFolder` and `PartialScope.PartialRestoreAppliesIff`;
  `FolderDeletes.KeptElsewhereButLost` and `PartialScope.TrappedFolder` are cases.
- `extension/src/bookmarks/index.ts:1207-1210` applies moves one by one, each
  before the next positioned sibling. Where that sibling is itself still to be
  moved the folder can end out of order, also in a restore, whose moves come in the
  point's order (`MoveOrder.BatchInOrderIff`, `RestoreOrder.RestoredOrderIff`,
  `RestoreCase.PlannedSiblingsEndUnsorted`). Whether it does can depend on where the
  plan is cut into slices of 500 operations (`RestoreCase.TheCutDecides`).
- `extension/src/restore-points/restore.ts:134-148` resumes a restore by planning
  again. A slice's positions are recorded before its moves are made, and a moved
  node is compared by its recorded position
  (`extension/src/restore-points/planner.ts:152`), so a move within a folder that was
  recorded and not made is never made, and counts as applied; nor is the place of a
  re-created node. Parents, titles and URLs do come out right. Exactly what is lost
  is stated by `RestoreCrash.CutShortLeaves`, `RestoreJob.ProgressTrueIff` and
  `RestoreJob.LastRunInOrderIff`; `RestoreCase.AMoveIsLost` is a case.
- `extension/src/sync/engine.ts:299-300` says when an upload cycle reports more to
  do. Restores just turned into creates can be queued although it reports nothing,
  when its budget of batches ends with a batch that was not full
  (`UploadBudget.FinishedLeavesDueIff`, `UploadBudget.BudgetRunsOut`).
- `server/src/restore_points/routes.rs:177` re-counts once for a victim that was
  pruned by somebody else in the meantime. With two such victims in a row, taken by
  two chunks of a prune, an upload is refused although eviction could have made room
  (`RestoreQuota.Database.Upload`, `RestoreQuota.TwoVanishedVictims`).

## Model

| member | source | states |
|---|---|---|
| Planner.PlanRestore | extension/src/restore-points/planner.ts:68-215 | the planner's loops give the specified plan, or fail exactly for an unknown folder |
| Planner.CoverScope | extension/src/restore-points/planner.ts:88-105 | the stack walk covers exactly the folder's subtree in the point, and the ancestor walk exactly the nodes above it |
| Planner.PlanNodes | extension/src/restore-points/planner.ts:107-161 | one pass gives the three phases in the point's order, and the count of skipped nodes |
| Planner.FindUnwanted | extension/src/restore-points/planner.ts:164-187 | the live nodes in scope that the point lacks and no policy manages, even though the walk is by an explicit stack |
| Planner.PlanDeletes | extension/src/restore-points/planner.ts:188-198 | topmost unwanted nodes only, in listing order |
| Descent.Descend | extension/src/restore-points/planner.ts:93-100 | the explicit stack finds exactly what a single pass over a parents-first list finds below the start |
| Descent.ClosedIsAll | extension/src/restore-points/planner.ts:93-100 | any set closed under following children holds all that is below the start |
| BookmarkForest.MoveKeeps | extension/src/test-support/fake-bookmarks.ts:101-113 | a move outside the moved subtree leaves every node reaching a root |
| BookmarkForest.DeleteKeeps | extension/src/test-support/fake-bookmarks.ts:120-124 | removing a subtree leaves a well-formed forest |
| Restore.StepIsGood | extension/src/restore-points/planner.ts:55-67 | the first operation of a full plan can always be applied; the rest is again a plan, for the same target, and no node of the point is lost |
| Restore.RunPrefix | extension/src/restore-points/planner.ts:55-67 | every prefix of a full plan can be applied, keeps the point's and the policy's nodes, and leaves a plan for the same target |
| Restore.AboveIsEarlier | extension/src/restore-points/planner.ts:107-161 | once earlier nodes are in place, a node is never above its own destination, so no move is into its own subtree |
| Restore.BelowSurplus | extension/src/restore-points/planner.ts:64-66 | once the point's nodes are in place, a folder about to be deleted holds only nodes to be deleted |
| Restore.RestoreReachesThePoint | extension/src/restore-points/planner.ts:68-215 | a full plan can be carried out to the end and ends with the target forest, which is well formed |
| Restore.TargetContents | extension/src/restore-points/planner.ts:55-67 | if all its URLs can be restored, the target has the point's nodes with the point's fields; in exact mode, besides them only managed nodes |
| Restore.NothingToDo | extension/src/restore-points/planner.ts:107-206 | an empty plan means being at the target |
| Restore.ReplanningResumes | extension/src/restore-points/restore.ts:218-259 | planning again after any k operations plans exactly the rest: the same edits in order, the same deletions, total minus k in number |
| RestoreJob.ApplyChunks | extension/src/restore-points/restore.ts:242-259 | the chunks apply exactly a prefix of the plan, with what the next operations of the same chunk record recorded already; the stored count lags behind by less than a chunk |
| RestoreJob.ProgressTrueIff | extension/src/restore-points/restore.ts:218-231 | after any number of interrupted runs a resumed job has the first target and counts as applied what was made plus the moves that were lost, so its progress is true if and only if none was |
| RestoreJob.LastRunFinishes | extension/src/restore-points/restore.ts:134-148 | a run that gets to the end after any interruptions ends with every node in the first target's folder at its position; made, lost and still planned operations add up to the first plan |
| RestoreJob.LastRunInOrderIff | extension/src/restore-points/restore.ts:134-148 | its siblings then stand in order if and only if those do, when it starts, that it neither places nor removes, the lost moves' among them, and it puts no node before a sibling standing out of place |
| RestoreCrash.CutShortLeaves | extension/src/bookmarks/index.ts:1500-1573 | with some operations made and more recorded the target is the same, and a plan for it is what was left without the moves within a folder that were recorded and not made; those nodes are not placed again |
| RestoreRun.PlanShape | extension/src/restore-points/planner.ts:107-206 | a plan's restores come before its updates, moves and deletions; no node is put in a place twice, none re-created is also edited, and none put in a place is deleted |
| RestoreRun.SliceRuns | extension/src/bookmarks/index.ts:1475-1573 | a slice of a plan can be carried out in the browser: positions recorded, nodes created last in their folders, moves in one batch, deletions, then the new nodes' places in another; the browser then mirrors the forest the operations lead to |
| RestoreRun.PlanRuns | extension/src/restore-points/restore.ts:242-255 | all slices in turn, each with the positions recorded so far: every stage can be carried out, and the run ends with the target, at the target's positions |
| PartialScope.ScopeCovers | extension/src/restore-points/planner.ts:90-105 | what a folder's restore covers starts at the folder, holds each node's parent, and shares nothing with the ancestors |
| PartialScope.EditsApplyIff | extension/src/restore-points/planner.ts:107-161 | the restores, updates and moves of one folder can all be carried out if and only if its nearest live ancestor is not inside what is covered |
| PartialScope.PartialRestoreAppliesIff | extension/src/restore-points/planner.ts:68-215 | the same for the whole plan of a merging restore of one folder |
| PartialScope.TrappedFolder | extension/src/restore-points/planner.ts:133-161 | a point and a tree where restoring one folder plans a move into itself, and cannot be carried out |
| FolderDeletes.DeletionsRemove | extension/src/bookmarks/index.ts:1296-1327 | a run of deletions, passing over nodes that are gone, always gets to its end and removes exactly what is inside one of the deleted nodes |
| FolderDeletes.GoesWithFromTheStart | extension/src/restore-points/planner.ts:133-161 | after the edits a node is inside a deleted folder exactly if it was before, with nothing put in place on the way up |
| FolderDeletes.ExactRestoreOfAFolder | extension/src/restore-points/planner.ts:163-199 | an exact restore of one folder gets to its end if and only if the folder is not trapped; then what it covers is as the point has it, and exactly what goes with a deleted node is lost |
| FolderDeletes.KeptElsewhereButLost | extension/src/restore-points/planner.ts:172-198 | a point and a tree where an exact restore of one folder loses a folder that the point keeps beside it, and passes over one of its deletions |
| Positions.NormalizePositions | extension/src/restore-points/snapshot.ts:34-57 | one position per sibling: its own if above the previous one, else a key above the previous and below the next usable one; it fails on no digit string |
| Positions.FindNextUsable | extension/src/restore-points/snapshot.ts:44-51 | the first later position that is above the previous one |
| Positions.NormalizedIncreases | extension/src/restore-points/snapshot.ts:31-33 | normalized positions are strictly increasing, whatever was recorded |
| Positions.NormalizedKeeps | extension/src/restore-points/snapshot.ts:31-33 | positions that already increase are kept as they are |
| Positions.BackfillFolder | extension/src/bookmarks/index.ts:652-704 | new children get positions and known ones keep theirs; where the recorded positions were in order and could be bounds (digits, not ending in 0), the folder ends strictly in order |
| Snapshot.GroupLive | extension/src/restore-points/snapshot.ts:64-70 | the index by parent lists each folder's live children in listing order |
| Snapshot.MergeRemoved | extension/src/restore-points/snapshot.ts:72-85 | each removed node goes before the first sibling with a larger position, else last; live ids win |
| Snapshot.BuildPointNodes | extension/src/restore-points/snapshot.ts:63-117 | the frame walk lists every opened folder's unmanaged children, each id once, parents before children, siblings in strictly increasing order of normalized positions |
| Snapshot.Walk | extension/src/restore-points/snapshot.ts:87-116 | the iterator stack terminates and emits the children of every folder it emits |
| PointFormat.ValidatePoint | extension/src/restore-points/format.ts:132-163 | accepts exactly the points of this version whose fields are all there and whose nodes have unique non-root ids, earlier parents, URLs on bookmarks only, and non-empty positions; another version is reported as such |
| Undo.CaptureIsFaithful | extension/src/restore-points/snapshot.ts:63-117 | a capture of a well-formed tree holds exactly its unmanaged nodes, says what the tree says, and passes the checks on points |
| Undo.CaptureMatchesItself | extension/src/restore-points/snapshot.ts:31-62 | planning a fresh capture against its own tree gives no restore, update or delete, and moves only where a position was normalized |
| Undo.RestoreIsUndone | README.md:360-363 | capture, exact restore of any other point, exact restore of the capture: the original forest is back |
| FractionalIndex.KeyBetween | extension/src/util/fractional-index.ts:17-77 | terminates; the key is above the lower bound, over the alphabet, not ending in 0, at most one digit longer; it is below the upper bound unless that is the lower one followed by zeros, and then it is the upper bound followed by V; it fails on bounds out of order, and otherwise only where a bound has a character outside the alphabet |
| FractionalIndex.BetweenCrowdedBounds | extension/src/util/fractional-index.ts:29-32 | between "a" and "a0" the key is "a0V", above both |
| FractionalIndex.HiAtLeastLo | extension/src/util/fractional-index.ts:50-57 | the branch for an upper bound that has ended before the lower one cannot be reached |
| FractionalIndex.CrowdedHoldsNoUsableKey | extension/src/util/fractional-index.ts:29-37 | between the bounds that cannot be separated, every key ends in 0 |
| FractionalIndex.BelowWheneverPossible | extension/src/util/fractional-index.ts:1-5 | wherever any usable key lies between the bounds, the key returned does |
| MoveBatch.MoveLandsBefore | extension/src/bookmarks/index.ts:1159-1171 | under the browser's index rule the computed index puts the mover immediately before its target, or last |
| Siblings.SortedInsertIndex | extension/src/bookmarks/index.ts:1191-1205 | the binary search finds the first larger position, after any equal ones |
| MoveBatch.Browser.GetParentOrder | extension/src/bookmarks/index.ts:1218-1259 | reads the browser unless the cached order is of the current generation |
| MoveBatch.Browser.PlaceOne | extension/src/bookmarks/index.ts:1270-1292 | one move and the splices on every cached order |
| MoveBatch.Browser.ApplyMovesBatch | extension/src/bookmarks/index.ts:1211-1294 | the loop carries out the specified run of moves, defers movers whose destination is missing, and leaves a well-formed tree |
| MoveBatch.StepKeepsCache | extension/src/bookmarks/index.ts:1270-1292 | after a move every cached order of the current generation is the browser's own, and the tree has changed by that move alone |
| MoveBatch.RunKeepsCache | extension/src/bookmarks/index.ts:1207-1210 | the same over a whole run, whatever others change between moves |
| MoveOrder.StepKeepsTidy | extension/src/bookmarks/index.ts:1270-1292 | a move keeps every folder's settled siblings in position order if the sibling it goes before, where that waits itself, stands where the mover belongs |
| MoveOrder.BatchKeepsOrder | extension/src/bookmarks/index.ts:1211-1294 | a batch ends in order if no move is followed by one of a node already standing in its folder and going further back: a single move, a batch in non-increasing order, arrivals from other folders |
| MoveOrder.BatchInOrderIff | extension/src/bookmarks/index.ts:1211-1294 | a batch in which each node moves once, without equal positions, ends in order if and only if no mover is ever put before a sibling that is still to be moved and stands out of place |
| MoveRun.RunInOrderIff | extension/src/bookmarks/index.ts:1456-1573 | a run of batches, with nodes created last, positions recorded and subtrees removed between them, ends in order if and only if what is not out of place starts in order and no mover is ever put before a sibling standing out of place |
| MoveClear.ClearRunIsApt | extension/src/bookmarks/index.ts:1211-1294 | no mover is, if nothing that is moved after it or not at all is above it in its folder, at its old position or its new one |
| MoveCase.AscendingBatchEndsUnsorted | extension/src/bookmarks/index.ts:1262-1293 | two moves in ascending order that leave a sorted folder unsorted |
| RestoreOrder.RestoredOrderIff | extension/src/restore-points/restore.ts:242-255 | a full restore, slice by slice, ends in the browser with its target at the target's positions; siblings then stand in order if and only if those that it neither places nor removes start in order, and in no batch a node is put before a sibling standing out of place |
| RestoreOrder.RestoredInOrder | extension/src/restore-points/restore.ts:242-255 | so they do if nothing that is placed later or removed is above a placed node in its folder, neither at the position recorded for it nor at the one it is to have |
| RestoreCase.PlannedSiblingsEndUnsorted | extension/src/bookmarks/index.ts:1262-1293 | a full restore of A, R, Q, B over A, B, R, Q, within one slice, ends as A, Q, B, R |
| RestoreCase.TheCutDecides | extension/src/restore-points/restore.ts:242-255 | a full restore of C, A, B over A, B, C ends right when its two moves come after 499 other operations, and so in two slices, and as A, C, B after fewer |
| RestoreCase.AMoveIsLost | extension/src/restore-points/planner.ts:148-161 | a restore cut short with its one move recorded and not made has nothing left to do, and the siblings stand in the old order |
| Conflict.AboveTotal | extension/src/sync/conflict.ts:25-36 | the ordering of keys is total and antisymmetric, and 0 only for the same key |
| Conflict.AboveTransitive | extension/src/sync/conflict.ts:25-36 | the ordering of keys is transitive |
| Conflict.ResolveEntriesInTx | extension/src/sync/conflict.ts:102-138 | one read, a walk in memory and one write give the store and the answers of resolving one by one |
| Conflict.BatchesCompose | extension/src/sync/conflict.ts:179-185 | splitting a run of entries into batches makes no difference |
| Conflict.ResolveAllKeepsGreatest | extension/src/sync/conflict.ts:64-97 | except for liveness, the record is the greatest key among everything resolved |
| Conflict.DeliveryOrderIrrelevant | extension/src/sync/conflict.ts:64-97 | except for liveness, the record does not depend on order, batches or repetition |
| LivenessOrder.GreatestWins | extension/src/sync/conflict.ts:64-97 | without deletes, or without moves, the greatest operation is the record |
| LivenessOrder.GreatestDeleteWins | extension/src/sync/conflict.ts:64-97 | with every create, restore and update below the greatest delete, that delete is the record, whatever the moves |
| LivenessOrder.GreatestEditWins | extension/src/sync/conflict.ts:64-97 | a create, restore or update above everything is the record |
| LivenessOrder.ContestedIsUnstable | extension/src/sync/conflict.ts:76-84 | a contested object ends live in one order of delivery and deleted in another |
| LivenessOrder.StableUnlessContested | extension/src/sync/conflict.ts:64-97 | the record is independent of delivery order if and only if the object is not contested |
| LivenessOrder.ThreeOperationsDisagree | extension/src/sync/conflict.ts:76-84 | three operations whose order of delivery decides |
| LivenessOrder.StoreHoldsOutcome | extension/src/sync/conflict.ts:102-138 | the liveness record of a store is the outcome of the operations it was sent |
| ServerMerge.SlicesCompose | extension/src/bookmarks/index.ts:1436-1450 | resolving a page in slices is resolving it at once |
| ServerMerge.MergeBookmarkFields | server/src/sync/conflict.rs:31-67 | the loop keeps the last title, the last URL and the last place, and nothing unless there are a title and a place |
| ServerMerge.ClientAgreesWithServer | server/src/sync/conflict.rs:19-31 | a client's title, URL and place, after any order, slices and repetitions of delivery, are what the server merges from the sorted history |
| Uuids.TextOrderIsByteOrder | extension/src/sync/conflict.ts:25-36 | string order on the lowercase text of UUIDs (section 4 of RFC 9562) is the order of their bytes |
| Uuids.SameOrderOfOperations | server/src/sync/conflict.rs:12-17 | the server's derived ordering and the extension's comparison agree on every two keys |
| Replication.LocalEntries | extension/src/bookmarks/index.ts:1333-1376 | a device records for its own operation what others will resolve, save for the liveness of updates and moves |
| Replication.NewestWins | extension/src/sync/engine.ts:140-182 | overwriting records with one's own new operation is what arbitration would do, because the clock is past everything known |
| Replication.EditKeeps | extension/src/sync/engine.ts:140-182 | a flush of local changes keeps a device's records greatest and its new operations later than everything it knew |
| Replication.ReceiveKeeps | extension/src/sync/engine.ts:522-531 | moving the clock past a page before resolving it keeps the records greatest |
| Replication.ReissueStepKeeps | extension/src/sync/engine.ts:231-297 | replacing a rejected restore by a later equal create loses no record |
| Replication.StepKeeps | extension/src/sync/engine.ts:140-182 | every step of the protocol keeps the invariant of devices and log |
| Replication.Convergence | extension/src/sync/conflict.ts:25-97 | over every schedule, each record but liveness is the greatest among what the device created or resolved, and devices that have caught up agree on every object they can both decrypt |
| Replication.NoTwoOperationsShareAKey | extension/src/storage/db.ts:537-551 | over every schedule, two operations in the log with equal ordering keys are the same |
| Download.Page.ProcessPage | extension/src/sync/engine.ts:529-602 | each applier gets the new readable operations of its type once and in wire order up to the end or the first unsupported one; exactly those handled are marked |
| Download.Page.FlushBatchBuffer | extension/src/sync/engine.ts:544-551 | flushing one type changes no type's sequence of operations given or waiting, and marks only what was applied |
| Download.Page.MarkApplied | extension/src/sync/engine.ts:539-542 | only handled operations are ever recorded, in chunks |
| Download.RetryHandlesTheRest | extension/src/sync/engine.ts:571-581 | after a page stopped at an unsupported operation, the same page with that one readable at last is handled to its end; the two runs apply every operation once in wire order, that one included, and mark all |
| Download.RetryPage | extension/src/sync/engine.ts:529-602 | the two runs, carried out: each applier has got its operations once and in wire order |
| Download.RedeliveryIsIgnored | extension/src/sync/engine.ts:558-559 | a finished page delivered again applies nothing |
| UploadQueue.GetPendingOperations | extension/src/storage/db.ts:569-609 | the capped scan returns the first due operations, and the cap never cuts it short |
| UploadQueue.Store.ReserveSequenceBatch | extension/src/storage/db.ts:537-551 | reserves adjacent sequence and clock values, both counters moved past them |
| UploadQueue.Store.TickLamportClock | extension/src/storage/db.ts:522-531 | the clock ends past its old value and past what was observed, and no further |
| UploadQueue.Store.UpdateSyncState | extension/src/storage/db.ts:510-519 | a patch changes the cursor and never a counter |
| UploadQueue.Store.ResetInFlightOperations | extension/src/storage/db.ts:613-624 | a restart queues what was in flight, with attempts unchanged |
| UploadQueue.Store.ReissueRestoresAsCreate | extension/src/sync/engine.ts:231-297 | rejected restores leave the queue and readable ones come back as later creates of the same objects |
| UploadQueue.Store.ApplyVerdicts | extension/src/sync/engine.ts:339-382 | acts on accepted, duplicate, missing-object and other verdicts as specified |
| UploadQueue.Store.UploadPending | extension/src/sync/engine.ts:301-395 | the batch loop is the specified run over queue, counters and outcome, and keeps the queue valid |
| UploadQueue.FailedRequestStep | extension/src/sync/engine.ts:383-388 | after a failed request its batch is queued as before, still due |
| UploadQueue.CycleIsAccounted | extension/src/sync/engine.ts:301-395 | sent sequences strictly increase; an operation leaves the queue only for one of the listed reasons; its attempts grow by at most one and only on a missing object; a failed request leaves its batch as it was |
| UploadBudget.FinishedLeavesDueIff | extension/src/sync/engine.ts:299-395 | a cycle that reports nothing more leaves something due if and only if its last batch got no verdict while more was due than it carried, or was the last one allowed, not full, and turned a readable restore into a create |
| UploadBudget.BudgetRunsOut | extension/src/sync/engine.ts:390-394 | a queue of 49 full batches and a restore on which the cycle reports nothing more and leaves the create due |
| UploadQueue.NothingDueAfter | extension/src/sync/engine.ts:390-391 | a batch that ends the cycle leaves nothing that could be sent |
| Materialize.Bookmarks.FindUnlinkedMatch | extension/src/bookmarks/index.ts:921-932 | finds a node with that parent, title and URL that no object is linked to, if there is one |
| Materialize.Bookmarks.Materialize | extension/src/bookmarks/index.ts:954-1031 | links an object to a node under its parent's and retries what waited, or defers it; terminates by the shrinking set of unmapped objects |
| Materialize.Bookmarks.RetryDeferredParent | extension/src/bookmarks/index.ts:1041-1096 | afterwards nothing waits on the folder that could be created |
| Materialize.Bookmarks.Deliver | extension/src/bookmarks/index.ts:1380-1416 | any delivery keeps the stores sound; one resolved before changes no field |
| Materialize.WaitsExactlyWhenItMust | extension/src/bookmarks/index.ts:934-1031 | a creatable object has no node exactly when it is deferred on a parent without one |
| Materialize.NodesAreThoseReachingARoot | extension/src/bookmarks/index.ts:954-1096 | whatever the delivery order, the objects with nodes are those whose ancestors reach a root, each under its parent's node |
| Materialize.DeliveryOrderIrrelevant | extension/src/bookmarks/index.ts:954-1096 | two orders of delivering the same creates map and defer the same objects |
| BulkImport.ChunksPartition | extension/src/history/bulk.ts:157-198 | segments and chunks lose, add and reorder no visit |
| BulkImport.HistogramSums | extension/src/history/bulk.ts:410-421 | a chunk's hour counts sum to its visits |
| BulkImport.CheckpointStep | extension/src/history/bulk.ts:451-462 | moving the checkpoint past an accepted chunk keeps it counting exactly the visits of the chunks below it |
| BulkImport.AcceptStep | extension/src/history/bulk.ts:401-454 | uploading the next chunk, or the same one again after a crash, leaves the server with the first chunks of the history |
| BulkImport.Importer.FlushChunk | extension/src/history/bulk.ts:392-465 | a crash before or after the upload or after the checkpoint leaves a consistent state; the histogram check never fails |
| BulkImport.Importer.PushGroup | extension/src/history/bulk.ts:180-198 | visits covered by uploaded chunks are skipped and the rest cut at segment boundaries that do not depend on where the run started |
| BulkImport.Importer.CollectHistoryBulk | extension/src/history/bulk.ts:335-546 | a run from any checkpoint ends consistent, however it ends; a completed one has uploaded every chunk |
| BulkImport.ImportedExactlyOnce | extension/src/history/bulk.ts:335-546 | in any consistent state the accepted chunks concatenate to a prefix of the history, to all of it once complete; counts and histograms are exact |
| BulkImport.ImportInRuns | extension/src/history/bulk.ts:335-546 | from nothing, over any schedule of runs cut short anywhere, every visit that has arrived has arrived once; when a run has completed, all have |
| RateLimiter.WaitingHelps | server/src/middleware/rate_limit.rs:343-355 | a caller who waits as told is served |
| RateLimiter.CleanupChangesNoDecision | server/src/middleware/rate_limit.rs:88-99 | removing idle entries at any moments changes no decision |
| RateLimiter.ServedAtMost | server/src/middleware/rate_limit.rs:343-355 | in any span a key is served at most limit plus limit times span over window times |
| RateLimiter.UnevictedServedAtMost | server/src/middleware/rate_limit.rs:290-356 | over every run of the limiter, whatever other keys do, a key that is not evicted is served at most limit plus limit times span over window times |
| RateLimiter.Partition.Sweep | server/src/middleware/rate_limit.rs:88-99 | removes exactly the entries idle for a window, and keeps the counters exact |
| RateLimiter.Partition.EvictOneEntry | server/src/middleware/rate_limit.rs:167-206 | frees one slot, never of an unexpired entry of the exempt bucket |
| RateLimiter.Partition.EvictLruInBucket | server/src/middleware/rate_limit.rs:215-248 | removes the least recently used of the entries looked at, of that bucket |
| RateLimiter.Partition.CheckWithRetryAfter | server/src/middleware/rate_limit.rs:290-356 | a known key is decided by its own tokens whatever the load; a new one is refused only if no slot could be freed; counters equal the entries and the map never exceeds capacity |
| RevocationCache.Store.Write | server/src/auth/extractors.rs:49-91 | keeps the value with the later stamp, and no other entry changes |
| RevocationCache.Store.Lookup | server/src/auth/extractors.rs:69-74 | answers from entries younger than the lifetime only |
| RevocationCache.Store.Sweep | server/src/auth/extractors.rs:27-32 | drops expired entries, and no lookup ever notices |
| RevocationCache.StepKeeps | server/src/auth/extractors.rs:217-242 | every step of readers, revocations and sweeps keeps the invariant on stamps |
| RevocationCache.RevokedStaysRevoked | server/src/devices/routes.rs:545-577 | over every interleaving, from a revocation's cache write on no lookup finds the key active, also after the tombstone was swept |
| RevocationCache.FoundActiveWasActive | server/src/auth/session.rs:61-78 | an active answer is older than the revocation's commit and no older than the lifetime |
| RestoreQuota.FindVictim | server/src/restore_points/routes.rs:190-205 | the least of the account's unpinned points other than the new one: automatic before manual, oldest first, then by id |
| RestoreQuota.Usage | server/src/restore_points/routes.rs:180-189 | the account's number of points and their total size |
| RestoreQuota.EvictedOneMore | server/src/restore_points/routes.rs:190-216 | evicting victim after victim removes a prefix of the eviction order |
| RestoreQuota.TurnsEnd | server/src/restore_points/routes.rs:206-215 | with no victim left, what remains is exactly the new point and what may not be evicted |
| RestoreQuota.Database.Upload | server/src/restore_points/routes.rs:76-225 | counters stay exact; a stored point leaves the account within its limits, having evicted a minimal prefix of the order and never the new point; the same id again changes nothing; a faulty request is refused for its first fault and an inadmissible point for its reason; an admissible one is refused if and only if what may not be evicted is too much with it, or a prune has just taken two victims in a row, both prunable, while it did not fit without the first; a refusal changes nothing |
| RestoreQuota.TwoVanishedVictims | server/src/restore_points/routes.rs:177-215 | an account with three points, the two oldest of them prunable: an upload that fits without these two is refused because a prune has just taken the one and then the other |
| RestoreQuota.Database.SetPinned | server/src/restore_points/routes.rs:292-346 | changes the pin alone; refuses exactly unknown points and pins past the cap |
| RestoreQuota.Database.DeletePoint | server/src/restore_points/routes.rs:348-377 | removes that point and credits its size |
| RestoreQuota.Database.PruneChunk | server/src/housekeeping.rs:300-349 | removes the oldest prunable points, all of them if the chunk is not full |
| RestoreQuota.Database.PruneRestorePoints | server/src/housekeeping.rs:77-100 | the chunk loop ends with nothing prunable left or the pass's limit reached, having removed prunable points only, oldest first |
| RestoreQuota.PruneSpares | server/src/housekeeping.rs:295-318 | pinned points, recent points and each account's newest survive pruning unchanged |
| RestoreQuota.PrunableAfter | server/src/housekeeping.rs:306-318 | a chunk's deletions make no other point prunable or unprunable |

## Left out

- Encryption, compression, base64, key derivation and id generation: decrypting is a property of an operation, ids are fresh values.
- HTTP, websockets, IndexedDB, SQL text, browser event wiring, timers, pacing, logging and the user interface: storage is a map or a sequence, a transaction one step.
- Mutual exclusion of the sync slot: its check and its setting are separated by an await (`extension/src/sync/engine.ts:894-903`).
- Local edits that interleave between reserving a clock value and recording field state (`extension/src/bookmarks/index.ts:596-606`): taken as one step.
- Snapshot resync, field-state garbage collection, pruning of applied ids and of deferred objects, and the server's compaction.
- Parent cycles from concurrent moves: nothing in the field state breaks them.
- Paging through the browser's history: the visit stream is given.
- The floating-point arithmetic of the limiter and the concurrency inside its map; one call of the limiter reads the clock once in the model.
- The two caches have one model, with the same lifetime of 30 seconds; what a session entry holds besides being revoked or not is left out.
- Login, device registration, rate-limit configuration, tabs, and other short-lived state.
- Plan titles and samples, the pre-restore upload, and the sync that precedes a restore.
- Titles and URLs that a slice of a restore writes up to ten at a time: they are made one after the other.
- Stand-in roots: the four built-in roots always exist in the model.
- Strings are compared by character; the digits, UUIDs and positions the source compares are all in the range where that is its order.
- Planner.PlanRestore: takes the checks on a point and a parents-first listing of the browser's tree as given, because its callers have done both.
- Restore.RestoreReachesThePoint: full scope only; one folder is the subject of `PartialScope` and `FolderDeletes`, without the resume arithmetic.
- Undo.RestoreIsUndone: asks for syncable URLs and recorded, increasing sibling positions, because a skipped URL or a normalized position does not come back.
- Positions.BackfillFolder: one folder at a time; the recursion over folders and the commit in streaming chunks are not modelled.
- MoveOrder.BatchKeepsOrder: for moves whose destinations exist, because a mover without one keeps its old place and its new position.
- MoveOrder.BatchInOrderIff: two siblings with equal positions are in order either way round, so with ties only one direction is claimed.
- MoveBatch.RunKeepsCache: others change the bookmarks between moves only, not during one.
- Materialize.Bookmarks.Materialize: without mappings to nodes that were removed, updates and moves waiting on a destination, and liveness.
- Materialize.NodesAreThoseReachingARoot: creates only, and not the sibling order of what is created late.
- BulkImport.Importer.CollectHistoryBulk: the operation id of a chunk is its index, and reserving the upload's sequence is not modelled.
- Download.Page.ProcessPage: an applier that fails is not modelled; the cursor is moved by the caller exactly if the page was finished.
- UploadQueue.Store.ReissueRestoresAsCreate: a device that has been reset in between is not modelled.
- Replication.Convergence: says nothing of liveness, whose record may differ between devices as `LivenessOrder` describes; what a device can decrypt is fixed for the run.
- RestoreJob.LastRunInOrderIff: the browser's layout at the interruption is any that mirrors the forest.
- PointFormat.ValidatePoint: whether a date can be parsed and an id is a UUID is given with the fields.
- RestoreQuota.Database.Upload: a prune that runs meanwhile takes one point at a time, the next victim, where one chunk of it may take several at once.
- UploadBudget.FinishedLeavesDueIff: supposes that the server answers for operations it was sent and for no others.
- RestoreOrder.RestoredOrderIff: with nobody else at the bookmarks; with two siblings at the same position in the target only one direction is claimed.
- FolderDeletes.ExactRestoreOfAFolder: a move that the browser refuses ends the run, as it does in the extension.
