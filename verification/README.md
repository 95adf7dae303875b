# NubiSync verification model

This project models the parts of NubiSync that decide what happens to a user's files, and proves
what they promise. It follows the Rust sources branch by branch and states the results for every
input, every run, or every reachable state.

- **Catalog projection** (`RemoteCatalog`, `Forest`, `SubtreeWalk`, `CatalogSearch`, `Hydration`,
  `RootCatalogProjection`, `ChangeBatch`, `CatchUp`, `DeleteOrder`, `CatalogCommit`). The in-memory
  catalog of a selected root is a class with a parent map and a parent-to-children index. Whole
  change batches are proved to end with exactly the remote subtree of the selected root, and their
  commit to leave exactly its rows.
- **Path lists and materialization** (`Sorting`, `Paths`, `RemoteTree`, `ExpectedPaths`,
  `TreeListing`, `ExpectedTree`, `Materialization`). A remote catalog is accepted exactly when it is
  one finite tree of safe names, and is then listed parent before child.
- **Receive-only convergence** (`ConvergenceDecision`, `ConvergencePlanner`, `ConvergencePlan`,
  `ConvergenceActions`, `ConvergenceExecution`, `ConvergenceRun`, `ConvergenceAnswers`). Three passes
  over a draft map are proved to compute one pointwise decision per path, and each kind of action to
  be listed exactly when the trees and receipts call for it. An unblocked plan can be executed in order,
  replanned after any step, and ends with the expected tree.
- **Drive tree walks** (`DriveAncestry`, `DriveMembership`, `DriveHydration`, `DriveListing`,
  `DriveProvider`). Ancestry resolution is exact on a fixed provider, and each of its answers has its
  condition; paged hydration is characterised against any provider, and succeeds against a provider
  that lists a forest exactly within the limits; a change batch run through both fails or catches up.
- **File create** (`UploadBuffer`, `UploadLoop`, `FileCreateIntent`, `FileCreateEvidence`,
  `FileCreateProtocol`, `FileCreateSafety`, `FileCreateConfirmation`, `FileCreateRecovery`). The
  upload buffer and loop, the compare-and-set updates of the intent row, the evidence for
  confirmation, and the whole protocol with any number of command processes, crashes between any two
  steps, other intents that are confirmed and settled meanwhile, and a provider that receives what
  was sent late and in any order.

`dafny verify dfyconfig.toml` checks everything.

## What the proofs found

- `delete_subtree` has no visited set. It ends exactly when its target is on no parent cycle, and a
  batch of truthful changes can put the target on one: an upsert that moves an ancestor below a
  descendant before the item between them is deleted (`DeleteOrder.TruthfulBatchCanCycle`). Batches
  whose deletions come before their upserts are safe (`DeleteOrder.DeletionsFirstIsSafe`), and
  putting the deletions first repairs every truthful batch (`DeleteOrder.ReorderingRepairs`).
- The merge branch of `set_action` is dead: no path ever receives two different kinds
  (`ConvergencePlanner.OrphansFit`). The collision, revisit and unsafe-path errors in the listing
  loop of the path builder are dead as well (`TreeListing.ListSingleTree`).
- An intent that awaits confirmation can become impossible to settle, although its file is in place.
  Four things the confirm command demands are never restored once lost: the durable change cursor
  from before submission, the local generation the intent was planned on, two-way mode, and being
  the only file create that awaits. `FileCreateConfirmation.SettlesIffFenced` proves that an
  awaiting intent can be settled if and only if all four hold, and there is a run that loses each:
  - confirmation commits the change window, which moves the cursor, in one durable step and settles
    the intent in another; a crash between them strands the intent (`CrashCanStrand`);
  - without any crash, settling another confirmed creation starts a new local generation and
    supersedes all pending events, and does not look for intents that await
    (`SettlingOtherStrands`);
  - leaving two-way mode has no guard on intents, and entering it again is refused while an intent
    row exists (`LeavingTwoWayStrands`);
  - a second file create that comes to await blocks both, since the command wants exactly one
    (`RivalStrands`).
- Membership answers are true of forests of any depth, but an item more than 129 steps below the
  root, or more than 128 places away from where its chain leaves the forest, makes the batch that
  reports it fail (`DriveProvider.DepthIsLimited`, `DriveProvider.OutsideIsLimited`).
- The storage deletes a subtree by a recursive query that ends on parent cycles, where the
  projection's walk of the same subtree does not (`CatalogCommit.DeleteRows`).
- The cross-process lock is not needed for the safety of file create: the results hold for any
  number of concurrent commands, by generation checks alone.

## Model

| member | source | states |
|---|---|---|
| `Hydration.ValidateHydration` | crates/nubisync-sync/src/lib.rs:352-417 | The check accepts exactly the whole subtrees: the expected live folder first, then usable items with distinct ids, each connected to it through listed parents; otherwise it gives the first complaint. |
| `Hydration.VerdictIff` | crates/nubisync-sync/src/lib.rs:352-417 | The verdict is acceptance if and only if the listing is a whole subtree. |
| `RootCatalogProjection.Projection.New` | crates/nubisync-sync/src/lib.rs:136-172 | Succeeds exactly on usable, distinct items under a non-blank root with every chain reaching the root, and then holds their parent map; otherwise gives the first complaint in source order. |
| `RootCatalogProjection.InitialIssueIff` | crates/nubisync-sync/src/lib.rs:136-172 | There is no complaint if and only if the items are an initial catalog. |
| `RootCatalogProjection.Projection.ApplyUpsert` | crates/nubisync-sync/src/lib.rs:261-280 | One entry of the parent map changes and the index still agrees with the map, with no empty bucket. |
| `RootCatalogProjection.Projection.RemoveSubtree` | crates/nubisync-sync/src/lib.rs:282-307 | Off a cycle it ends, removes exactly the id and its transitive children, and keeps the index in agreement. |
| `RootCatalogProjection.Projection.IsComplete` | crates/nubisync-sync/src/lib.rs:309-330 | The counting search is true if and only if every parent chain reaches the root. |
| `RootCatalogProjection.Projection.ValidateComplete` | crates/nubisync-sync/src/lib.rs:253-259 | Errors exactly when some chain does not reach the root. |
| `RootCatalogProjection.Projection.ApplyChange` | crates/nubisync-sync/src/lib.rs:182-251 | A success leaves the map that replaying the emitted mutations gives, and an error, a no-op or a root revalidation leaves it unchanged; a hydration emits one upsert of each of its items, itself and in order, any other change the upsert of its own item or the deletion of its id. |
| `RootCatalogProjection.ChangeAnswers` | crates/nubisync-sync/src/lib.rs:182-251 | What a change is answered in every context of membership, hydration and catalog, in terms of the change's own fields. |
| `RootCatalogProjection.DetachKeepsIndex` | crates/nubisync-sync/src/lib.rs:261-307 | Taking a child out of its bucket, and dropping the bucket once empty, gives the index of the map without it. |
| `RootCatalogProjection.AttachKeepsIndex` | crates/nubisync-sync/src/lib.rs:261-280 | Adding a child to its parent's bucket gives the index of the extended map. |
| `RootCatalogProjection.ReplayConcat` | crates/nubisync-sync/src/lib.rs:182-251 | Replaying a run of mutations is replaying its parts one after the other. |
| `RemoteCatalog.BlankIffTrimmedEmpty` | crates/nubisync-sync/src/lib.rs:136-172 | An identifier counts as blank exactly when nothing is left of it after trimming white space at both ends. |
| `Forest.CompleteHasNoCycle` | crates/nubisync-sync/src/lib.rs:309-330 | A complete catalog has no parent cycle. |
| `Forest.UpsertKeepsCompleteIff` | crates/nubisync-sync/src/lib.rs:261-280 | From a complete catalog, upserting x under p stays complete if and only if p is the root, or is cataloged and neither x nor below x. |
| `SubtreeWalk.OffCycleRunStops` | crates/nubisync-sync/src/lib.rs:282-291 | Off a cycle the collecting loop, in whatever order it visits children, ends within the catalog size. |
| `SubtreeWalk.OnCycleNeverDrains` | crates/nubisync-sync/src/lib.rs:282-291 | On a cycle no run of the collecting loop ever empties its queue. |
| `SubtreeWalk.WalkFinished` | crates/nubisync-sync/src/lib.rs:282-291 | What an ended walk popped is exactly the id and its transitive children. |
| `CatalogSearch.SearchFinished` | crates/nubisync-sync/src/lib.rs:309-330 | A search whose queue is empty has reached exactly the ids under the root, so the counts agree if and only if the catalog is complete. |
| `ChangeBatch.ExecuteChangeBatch` | crates/nubisync-daemon/src/lib.rs:8147-8222 | Off cycles, the batch answers with the mutations of all its changes, or its first error, and only if the projected catalog ends complete; an unusable durable catalog gives its first complaint. |
| `ChangeBatch.RootChangeIsChecked` | crates/nubisync-daemon/src/lib.rs:8147-8222 | A batch with a change to the root succeeds only while the canonical id is the root's, and answers that the identity changed when no earlier change fails. |
| `CatchUp.BatchCatchesUp` | crates/nubisync-sync/src/lib.rs:182-259 | A batch in any order, with repeats, that reports the forest T and mentions every difference from T0 fails only if the provider does; else it turns T0's subtree under the root into exactly T's, and the completeness check passes. The statement is about the batch's meaning: where a deletion finds its target on a parent cycle the source's walk does not end, so `ExecuteChangeBatch` needs that excluded. |
| `CatchUp.ExecutedBatchCatchesUp` | crates/nubisync-daemon/src/lib.rs:8147-8222 | Whatever the executed batch answers is a provider failure or mutations that lead to exactly T's subtree. |
| `CatchUp.HonestHydrationPasses` | crates/nubisync-sync/src/lib.rs:352-417 | A folder and everything below it in a live forest, in any order after the folder, passes the hydration check. |
| `DeleteOrder.DeleteStaysComplete` | crates/nubisync-sync/src/lib.rs:282-307 | Deleting a subtree from a complete catalog leaves it complete. |
| `DeleteOrder.DeletionsFirstIsSafe` | crates/nubisync-sync/src/lib.rs:182-251 | If no change that may upsert comes before one that may delete, which the membership answers alone tell, no deletion finds its target on a cycle. |
| `DeleteOrder.ReorderingRepairs` | crates/nubisync-daemon/src/lib.rs:8147-8222 | Any truthful batch with its deletions put first is a permutation that deletes off cycles and leads to the same subtree. |
| `DeleteOrder.TruthfulBatchCanCycle` | crates/nubisync-sync/src/lib.rs:282-291 | A truthful batch between two forests that puts its delete target on a parent cycle, where the walk never ends. |
| `CatalogCommit.DeleteRows` | crates/nubisync-storage/src/lib.rs:7299-7323 | The recursive query removes exactly the id and everything below it, on cycles too. |
| `CatalogCommit.CommitMutations` | crates/nubisync-storage/src/lib.rs:5861-5883 | A transaction applies all mutations in order, or none and gives the error of the first that is refused; upserts of trashed items, blank ids and sizes past 2^63 - 1 are refused. |
| `CatalogCommit.StoreReplays` | crates/nubisync-storage/src/lib.rs:5861-5883 | What the projection replays on parents is what the rows go through. |
| `CatalogCommit.BatchStoresRows` | crates/nubisync-storage/src/lib.rs:5808-5913 | A truthful batch that mentions every row that differs leaves exactly the rows of the new subtree, with their parents, names, kinds and sizes. |
| `CatalogCommit.TrueMutationsCommit` | crates/nubisync-storage/src/lib.rs:5861-5883 | Of the mutations of such a batch only an upsert with too large a size can be refused. |
| `Paths.JoinSplit` | crates/nubisync-sync/src/lib.rs:838-857 | Splitting a path at its slashes and joining the components gives the path back. |
| `Paths.BelowIffProperPrefix` | crates/nubisync-sync/src/convergence.rs:519-524 | The string prefix test with a slash is the proper-prefix relation on components. |
| `Paths.SafePathIff` | crates/nubisync-sync/src/lib.rs:830-857 | A path is safe if and only if each component is a safe name. |
| `Paths.SafePathLeadsBelow` | crates/nubisync-sync/src/lib.rs:838-857 | A path without NUL is safe if and only if following it from any folder leads below it, through exactly its components. |
| `Paths.ChildPath` | crates/nubisync-sync/src/lib.rs:705-828 | A safe parent path, a slash and a safe name make a safe path one component longer. |
| `TreeListing.BuildRemoteExpectedPaths` | crates/nubisync-sync/src/lib.rs:705-828 | Succeeds exactly on nothing or one finite tree under a single outside parent, and then lists every item once, with the path of names along its chain, in canonical order; otherwise the first complaint. |
| `Sorting.LessIff` | crates/nubisync-sync/src/lib.rs:772-776 | The order of sibling names: one string is a proper prefix of the other, or smaller at the first difference. |
| `TreeListing.ListSingleTree` | crates/nubisync-sync/src/lib.rs:759-828 | Once items and parents are checked, the only remaining error is an incomplete catalog, which is exact; collisions, revisits and unsafe paths cannot happen. |
| `ExpectedPaths.BuildIssueIff` | crates/nubisync-sync/src/lib.rs:705-828 | There is no complaint if and only if the items are one remote tree. |
| `ExpectedTree.ListedOnce` | crates/nubisync-sync/src/lib.rs:770-815 | No two listed entries have the same id. |
| `ExpectedTree.PathsAreDistinct` | crates/nubisync-sync/src/lib.rs:770-815 | No two listed entries have the same path. |
| `ExpectedTree.ParentListedBefore` | crates/nubisync-sync/src/lib.rs:770-815 | The parent of a nested entry is listed earlier, as a folder, at the path without the last component. |
| `ExpectedTree.ListIsCanonical` | crates/nubisync-sync/src/lib.rs:770-815 | Permuting the remote items never changes a successful list. |
| `ExpectedTree.AncestorsAreExpected` | crates/nubisync-sync/src/lib.rs:705-828 | Every path above an expected path is expected, as a folder. |
| `ExpectedTree.ListGivesTree` | crates/nubisync-sync/src/lib.rs:705-828 | A successful list gives the planners a tree: distinct ids, and folder parents for all nested paths. |
| `Materialization.ScanLocal` | crates/nubisync-sync/src/lib.rs:553-564 | Succeeds exactly on safe, distinct local paths, and otherwise gives the first complaint in source order. |
| `Materialization.LocalIssueIff` | crates/nubisync-sync/src/lib.rs:553-564 | There is no complaint if and only if all paths are safe and distinct. |
| `Materialization.PlanReceiveOnlyMaterialization` | crates/nubisync-sync/src/lib.rs:548-618 | Succeeds exactly on a remote tree and a usable local scan, and every count is the size of its comparison class; otherwise gives the first complaint about the catalog, or else about the scan. |
| `Materialization.CountsConserve` | crates/nubisync-sync/src/lib.rs:548-618 | The counts partition the remote items, and with the local-only rest the local entries. |
| `ConvergenceDecision.ActionOrder` | crates/nubisync-sync/src/convergence.rs:435-448 | The comparator, with its reversed depth rule for directory deletions, is a strict order, total on different paths. |
| `ConvergenceDecision.PlanIsUnique` | crates/nubisync-sync/src/convergence.rs:424-448 | A draft map has one canonical action list. |
| `ConvergencePlan.DestructiveActionsAreOwned` | crates/nubisync-sync/src/convergence.rs:240-392 | Of all actions a plan returns, a deletion names only a local path outside the expected tree with a stale receipt of the same kind whose id is gone, and an empty directory; a replacement only a stale file receipt of the same id and path. |
| `ConvergencePlan.DeletedDirectoriesAreUnrelated` | crates/nubisync-sync/src/convergence.rs:338-392 | No directory that a plan deletes lies below another. |
| `ConvergencePlanner.SetAction` | crates/nubisync-sync/src/convergence.rs:490-510 | One call adds at most the candidate's path and leaves all others alone; the same kind again changes nothing, a second kind blocks the path without an id; the limit error exactly when a new path is one too many. |
| `ConvergencePlanner.ScanReceipts` | crates/nubisync-sync/src/convergence.rs:206-221 | Succeeds exactly when no id and no path occurs twice, and otherwise gives the first repeat in source order. |
| `ConvergencePlanner.ReceiptIssueIff` | crates/nubisync-sync/src/convergence.rs:206-221 | There is no complaint if and only if no id and no path occurs twice. |
| `ConvergencePlanner.DraftExpected` | crates/nubisync-sync/src/convergence.rs:235-336 | The first pass drafts exactly the decisions on the expected paths, or exceeds the limit. |
| `ConvergencePlanner.DraftLocal` | crates/nubisync-sync/src/convergence.rs:338-392 | The second pass adds exactly the decisions on the other local paths. |
| `ConvergencePlanner.DraftOrphans` | crates/nubisync-sync/src/convergence.rs:394-423 | The third pass adds exactly the decisions on paths known only from receipts. |
| `ConvergencePlanner.OrphansFit` | crates/nubisync-sync/src/convergence.rs:394-423 | A path that the third pass drafts has the same decision already or none, so the merge branch is never taken. |
| `ConvergencePlanner.LeftoverDecision` | crates/nubisync-sync/src/convergence.rs:394-423 | What the pointwise decision is at a receipt path without a local entry. |
| `ConvergencePlanner.ListActions` | crates/nubisync-sync/src/convergence.rs:424-448 | The collected and sorted actions are the canonical list of the drafts. |
| `ConvergencePlanner.CountKinds` | crates/nubisync-sync/src/convergence.rs:467-485 | Each counter is the number of paths drafted with its kind. |
| `ConvergencePlan.PlanReceiveOnlyConvergence` | crates/nubisync-sync/src/convergence.rs:181-488 | Unusable input gives the first complaint in source order; otherwise the limit error exactly when more paths than the limit are decided, and else the canonical plan of the decisions. |
| `ConvergencePlan.PlanIssueIff` | crates/nubisync-sync/src/convergence.rs:181-221 | There is no complaint if and only if the limit is positive, the items are one remote tree or none, the local paths are safe and distinct, and the receipts are unique. |
| `ConvergencePlan.DraftAll` | crates/nubisync-sync/src/convergence.rs:235-423 | The three passes compute the map of pointwise decisions, or exceed the limit if and only if that map does. |
| `ConvergencePlan.BlockedIff` | crates/nubisync-sync/src/convergence.rs:152-154 | A plan reports itself blocked if and only if some path's decision is blocked. |
| `ConvergencePlan.PlanIsCanonical` | crates/nubisync-sync/src/convergence.rs:181-488 | Permuting remote items, local entries or receipts never changes a successful plan. |
| `ConvergencePlan.PlannersAgree` | crates/nubisync-sync/src/convergence.rs:450-485 | Without receipts the plan's counts are the materialization counts, and blocked is conflicts plus local-only entries. |
| `ConvergenceActions.CreateDirectoryIff` | crates/nubisync-sync/src/convergence.rs:260-283 | A directory creation is listed exactly where a folder is expected, nothing is found, and the receipts for its id and path are none or agree. |
| `ConvergenceActions.MaterializeIff` | crates/nubisync-sync/src/convergence.rs:260-283 | The same for a file to materialize. |
| `ConvergenceActions.VerifyIff` | crates/nubisync-sync/src/convergence.rs:307-333 | A verification is listed exactly where a file is expected and found and neither its id nor its path has a receipt. |
| `ConvergenceActions.ReplaceIff` | crates/nubisync-sync/src/convergence.rs:307-333 | A replacement is listed exactly where a file is expected and found whose one receipt, for its id and path, is stale. |
| `ConvergenceActions.DeleteFileIff` | crates/nubisync-sync/src/convergence.rs:338-392 | A file deletion is listed exactly where a file is found that is not expected, owned by a stale receipt whose id is gone. |
| `ConvergenceActions.DeleteDirectoryIff` | crates/nubisync-sync/src/convergence.rs:338-392 | A directory deletion is listed exactly where the same holds of a directory below which nothing is found. |
| `ConvergenceActions.BlockedPathIff` | crates/nubisync-sync/src/convergence.rs:240-423 | When a path is blocked, and with which id: an obstructed expected path, a found path that may not go, or a path known from receipts only. |
| `ConvergenceActions.UnsettledIff` | crates/nubisync-sync/src/convergence.rs:235-423 | A path is in the plan exactly when it is expected, found or owned, and not settled in one of three ways. |
| `ConvergenceActions.SettledCounts` | crates/nubisync-sync/src/convergence.rs:285-313 | The three counters are the numbers of owned files, owned directories and unowned directories that are as they should be. |
| `ConvergenceActions.ActionsAreNamed` | crates/nubisync-sync/src/convergence.rs:424-434 | Only blocked actions name no id, and every action carries its path's depth. |
| `ConvergenceActions.PlanOrder` | crates/nubisync-sync/src/convergence.rs:435-448 | Creations come first, then work on expected files, file deletions, directory deletions and blocked paths; within each by depth, reversed for directory deletions, then by path. |
| `ConvergenceExecution.StepRemovesDecision` | docs/PHASE_5.md:173-174 | Executing an action removes exactly its path's decision, changes no other, and leaves the rest unblocked. |
| `ConvergenceExecution.ReplanIsTail` | crates/nubisync-sync/src/convergence.rs:181-488 | After the first action of an unblocked plan, the new plan is exactly the tail of the old one. |
| `ConvergenceExecution.FirstActionIsLegal` | crates/nubisync-sync/src/convergence.rs:435-448 | The first action finds its parent directory present, or its directory empty. |
| `ConvergenceRun.PlanIsLegal` | crates/nubisync-sync/src/convergence.rs:435-448 | Executing an unblocked plan in order is legal at every step. |
| `ConvergenceRun.PlanExecutes` | crates/nubisync-sync/src/convergence.rs:181-488 | After any number of steps the rest of the list is the current plan, still unblocked. |
| `ConvergenceRun.PlanConverges` | docs/PHASE_5.md:274-277 | The run ends with exactly the expected tree and an empty plan. |
| `ConvergenceRun.NothingDecidedMeansConverged` | crates/nubisync-sync/src/convergence.rs:235-423 | When nothing is decided, the local tree is the expected tree. |
| `ConvergenceAnswers.NextAnswerIsTail` | crates/nubisync-sync/src/convergence.rs:181-488 | Two calls: once the first action of an unblocked answer is executed, the planner answers again within the limit, unblocked, with exactly the rest of the actions. |
| `ConvergenceAnswers.AnswerConverges` | docs/PHASE_5.md:274-277 | Executing an unblocked answer is legal at every step and leaves exactly the listed remote tree. |
| `DriveAncestry.ResolveItemMembership` | crates/nubisync-drive/src/api.rs:339-385 | The answer the chain of good folders calls for: the first place that settles it within 128 hops, a repeated place as a cycle, and otherwise the hop limit. |
| `DriveAncestry.ValidIdIff` | crates/nubisync-drive/src/api.rs:1840-1852 | An id is valid exactly when it has 1 to 256 ASCII letters, digits, dashes or underscores. |
| `DriveAncestry.AnswerIsUnique` | crates/nubisync-drive/src/api.rs:339-385 | The chain calls for one answer only. |
| `DriveAncestry.DescendantIff` | crates/nubisync-drive/src/api.rs:339-385 | Descendant if and only if the root is the ancestor at distance 1 to 129 and all closer ancestors are live, owned, single-parent folders; a cycle error or an outside answer means the chain never meets the root. |
| `DriveAncestry.MembershipMatchesForest` | crates/nubisync-drive/src/api.rs:1806-1838 | On a provider that reports a forest, descendant is answered exactly for the items at most 129 steps below the root. |
| `DriveMembership.OutsideIff` | crates/nubisync-drive/src/api.rs:339-385 | Outside if and only if, within 128 places and before the root, the chain runs out of parents or meets a fetched folder that is trashed or not owned. |
| `DriveMembership.RequestFailedIff` | crates/nubisync-drive/src/api.rs:339-385 | A failed request is answered exactly when a fetch on the chain failed. |
| `DriveMembership.InvalidIdentifierIff` | crates/nubisync-drive/src/api.rs:339-385 | Exactly when the chain meets an invalid id, or one is fetched. |
| `DriveMembership.IdMismatchIff` | crates/nubisync-drive/src/api.rs:1806-1838 | Exactly when a place on the chain is fetched under another valid id. |
| `DriveMembership.ParentNotFolderIff` | crates/nubisync-drive/src/api.rs:1806-1838 | Exactly when the chain meets a live, owned place that is no folder. |
| `DriveMembership.MultipleParentsIff` | crates/nubisync-drive/src/api.rs:1806-1838 | Exactly when the chain meets a live, owned folder with more than one parent. |
| `DriveMembership.CycleIff` | crates/nubisync-drive/src/api.rs:362-364 | Exactly when one of the first 128 places comes twice. |
| `DriveMembership.HopLimitIff` | crates/nubisync-drive/src/api.rs:353-384 | Exactly when 128 different good folders lead on to something other than the root. |
| `DriveMembership.OutsideOfForest` | crates/nubisync-drive/src/api.rs:339-385 | On a provider that reports a forest and never fails, an item whose chain leaves the forest within 128 places is outside, and any other such item exceeds the hop limit. |
| `DriveMembership.OutsideLeaves` | crates/nubisync-drive/src/api.rs:339-385 | Every item of a forest that is not below the root has a chain that leaves the forest. |
| `DriveHydration.TakeChildren` | crates/nubisync-drive/src/api.rs:516-528 | A page's children are all taken in, folders queued in order, or the first complaint ends the run. |
| `DriveHydration.HydrateFolderSubtree` | crates/nubisync-drive/src/api.rs:484-547 | Every request made was the one called for, was answered and was taken in; the result, or the failure of the next request, is the one the answers determine. |
| `DriveHydration.RunPassesCheck` | crates/nubisync-drive/src/api.rs:484-547 | Against any provider, a successful walk passes the hydration check, asked for each listed folder exactly once in order, and kept the page, item and count limits. |
| `DriveHydration.RunHydratesForest` | crates/nubisync-drive/src/api.rs:484-547 | Against a provider that lists a forest, a successful walk has collected the folder and exactly everything below it. |
| `DriveHydration.WalkedIsWholeSubtree` | crates/nubisync-drive/src/api.rs:1765-1804 | Distinct usable items that each name an earlier listed folder as parent are a whole subtree. |
| `DriveHydration.ChildComplaints` | crates/nubisync-drive/src/api.rs:1783-1804 | Which complaint a listed child meets first, told from its fields. |
| `DriveHydration.RootComplaints` | crates/nubisync-drive/src/api.rs:1765-1781 | Which complaint the folder itself meets first, told from its fields. |
| `DriveListing.WalkSucceedsIff` | crates/nubisync-drive/src/api.rs:484-547 | Against a provider that answers every request and lists a forest page by page, each child once, under tokens of their own, the walk succeeds if and only if the subtree has at most 100000 pages and 1000000 items and its skipped items fit 64 bits. |
| `DriveProvider.ResolveMembership` | crates/nubisync-daemon/src/lib.rs:7553-7566 | The provider's membership answer is that of one ancestry resolution. |
| `DriveProvider.HydrateFolder` | crates/nubisync-daemon/src/lib.rs:7568-7575 | The provider's hydration answer is that of one paged walk. |
| `DriveProvider.DriveAnswersTruly` | crates/nubisync-daemon/src/lib.rs:7538-7576 | When Drive holds a forest, of whatever depth, every membership and hydration answer of the client is true of it; it can only fail. |
| `DriveProvider.BatchThroughDrive` | crates/nubisync-daemon/src/lib.rs:8147-8222 | A batch that reports the forest, executed through the Drive client, fails on a Drive request or leads to exactly the new subtree. |
| `DriveProvider.BatchThroughDriveStores` | crates/nubisync-daemon/src/lib.rs:8147-8222 | The same for whole rows: the commit leaves exactly the rows of the new subtree. |
| `DriveProvider.HydratesIffWithinLimits` | crates/nubisync-daemon/src/lib.rs:7568-7575 | A folder of a forest that is listed page by page is hydrated exactly when its subtree is within the limits. |
| `DriveProvider.DepthIsLimited` | crates/nubisync-drive/src/api.rs:339-385 | An item of the selected subtree is answered as descendant exactly when it is at most 129 steps below the root, and as a failure otherwise. |
| `DriveProvider.OutsideIsLimited` | crates/nubisync-drive/src/api.rs:339-385 | An item outside the selected subtree is answered outside exactly when its chain leaves the forest within 128 places, and as a failure otherwise. |
| `UploadBuffer.CreateUploadBuffer.New` | crates/nubisync-daemon/src/lib.rs:236-261 | Rejects exactly zero sizes and a target that is no multiple of the alignment. |
| `UploadBuffer.CreateUploadBuffer.PrepareRequest` | crates/nubisync-daemon/src/lib.rs:297-346 | The request starts at the acknowledged offset, carries the source's own bytes up to the target or the end, and is final exactly at the end; only reading, or an acknowledged end, can stop it. |
| `UploadBuffer.CreateUploadBuffer.RecordTransmissionBytes` | crates/nubisync-daemon/src/lib.rs:356-383 | Counts exactly the request that is pending. |
| `UploadBuffer.CreateUploadBuffer.AcknowledgeProviderOffset` | crates/nubisync-daemon/src/lib.rs:385-406 | An offset is accepted exactly when it lies within what was sent; accepted bytes leave the buffer. |
| `UploadBuffer.CreateUploadBuffer.CompletedSha256Hex` | crates/nubisync-daemon/src/lib.rs:118-123 | Each byte is hashed once however often it is sent, so the digest is the content's. |
| `UploadBuffer.CreateUploadBuffer.FinishCompleted` | crates/nubisync-daemon/src/lib.rs:125-146 | Succeeds exactly when the whole content was read and both metadata requests succeed, with the content's digest; the source is reported stable exactly when the open file and its path both still have the initial metadata of a regular file. |
| `UploadLoop.RangeRoundTrip` | crates/nubisync-drive/src/api.rs:1453-1473 | A provider's report of the first bytes it holds is understood exactly while bytes are missing; no offset at or past the total is ever taken. |
| `UploadLoop.RangeIsUnderstood` | crates/nubisync-drive/src/api.rs:1453-1473 | Any decimal text of the last byte held, with leading zeros or a plus sign, is understood. |
| `UploadLoop.RangeMeans` | crates/nubisync-drive/src/api.rs:1453-1473 | Whatever range is taken for progress names the byte before the offset and lies before the end. |
| `UploadLoop.ReportIsUnderstood` | crates/nubisync-drive/src/api.rs:1535-1561 | A provider's report of the bytes it holds, or of completion, is learned as just that. |
| `UploadLoop.AnswerMeans` | crates/nubisync-drive/src/api.rs:1535-1561 | What every other response means. |
| `UploadLoop.LearnedFrom` | crates/nubisync-cli/src/main.rs:2131-2143 | The status query decides exactly when the answer to the chunk is an error. |
| `UploadLoop.LearnedProgress` | crates/nubisync-drive/src/api.rs:1535-1561 | An incomplete offset is always below the total, and only three failures are ever learned. |
| `UploadLoop.StoreFingerprint` | crates/nubisync-cli/src/main.rs:2103-2113 | The content's digest is durable before the final request goes out; with stored evidence it must match. |
| `UploadLoop.UploadFile` | crates/nubisync-cli/src/main.rs:2094-2177 | At most four requests a byte; only the source's own bytes are sent, without gaps; completion comes from a final request whose digest was durable; every failure has its cause in the last turn. Against a provider that takes some part of what it is sent within every four turns and reports it truly, with nothing in the way on this side, the upload completes with the provider's completion and the content's digest. |
| `UploadLoop.WillingNeverFails` | crates/nubisync-cli/src/main.rs:2094-2177 | With such a provider there is no cause for a failure in any turn. |
| `UploadLoop.HeldIsPrefix` | crates/nubisync-cli/src/main.rs:2094-2177 | Whatever sent chunks arrive in whatever order, the provider holds a prefix of the content, and all of it only once the digest is durable. |
| `FileCreateIntent.UpdateAdvances` | crates/nubisync-storage/src/lib.rs:3711-4541 | Every successful update keeps what each status promises, never returns to planned, never changes a stored digest or version, and gives each change of status or attempt count a new generation. |
| `FileCreateIntent.UpdateSucceedsIff` | crates/nubisync-storage/src/lib.rs:3711-4541 | Which update requests succeed on which rows. |
| `FileCreateIntent.UpdateLeaves` | crates/nubisync-storage/src/lib.rs:3711-4541 | What a successful request leaves in the row, and that all else stays. |
| `FileCreateIntent.StaleUpdateFails` | crates/nubisync-storage/src/lib.rs:4104-4217 | A request made from a row that has since changed is refused. |
| `FileCreateEvidence.ScanTargetChanges` | crates/nubisync-cli/src/main.rs:3664-3681 | The scan of the window counts no target change exactly when none is mentioned, and ends with an exact last change exactly when the latest change to the target upserts it live with the expected name, parent, kind and size. |
| `FileCreateEvidence.LastTargetExactIff` | crates/nubisync-cli/src/main.rs:1905-1923 | Reading the window backwards to the first change of the target gives the same two answers. |
| `FileCreateSafety.CrashSafety` | crates/nubisync-cli/src/main.rs:2054-2260 | In every reachable state, with crashes anywhere, sessions never exceed durable attempts, a file this protocol made has the durable size and digest, and an awaiting or confirmed intent names a version at which the exact file stood. |
| `FileCreateSafety.RunIsSafe` | crates/nubisync-cli/src/main.rs:2305-2820 | Over every run the safety invariant holds in each state, and nothing durable is taken back between any two states; the local generation only grows and two-way mode is never entered again. |
| `FileCreateSafety.StepKeeps` | crates/nubisync-cli/src/main.rs:2537-2688 | Each step of submit, recovery, confirmation and conflict recovery, of the provider, of others, and of other intents keeps the safety invariant. |
| `FileCreateSafety.UpdateKeeps` | crates/nubisync-storage/src/lib.rs:3748-3795 | A justified row update keeps the row, the sessions and the files in agreement. |
| `FileCreateConfirmation.ConfirmedOnlyByEvidence` | crates/nubisync-cli/src/main.rs:3666-3781 | Confirmed is entered only on a window whose latest change to the target upserts it live with the expected name, parent, kind and size, a catalog item with the same, and the recorded content at or above the recorded version; or out of a conflict with one attempt, the same catalog item and the same content evidence. What the window and the catalog showed was true of the file at some time. |
| `FileCreateConfirmation.CommitsThatConfirm` | crates/nubisync-cli/src/main.rs:3882-3995 | Of all row updates only the verdict and the conflict recovery can confirm, each with its evidence. |
| `FileCreateConfirmation.VerdictConfirmsIff` | crates/nubisync-cli/src/main.rs:3753-3781 | A stored verdict is confirmed if and only if it has that evidence, and conflict otherwise. |
| `FileCreateConfirmation.UnobservedChangesNothing` | crates/nubisync-cli/src/main.rs:3683-3731 | A confirmation whose window does not mention the target ends and leaves everything durable as it was. |
| `FileCreateConfirmation.ConfirmStartsIff` | crates/nubisync-cli/src/main.rs:3505-3606 | A confirmation starts exactly in two-way mode, on the only awaiting file create, with its evidence, on the local generation it was planned on, with its source event pending, and with the fence at the durable cursor. |
| `FileCreateConfirmation.SubmissionNeeds` | crates/nubisync-storage/src/lib.rs:4104-4219 | A new attempt is stored only in two-way mode, on the planned generation, with a pending event, and is fenced at the durable cursor. |
| `FileCreateConfirmation.RescueStartsOnly` | crates/nubisync-cli/src/main.rs:3863-3975 | Leaving a conflict starts only on the same demands, a first attempt, an exact catalog item, and exact content at the recorded version or later. |
| `FileCreateConfirmation.StrandedForever` | crates/nubisync-cli/src/main.rs:3505-3606 | Once the durable cursor or the local generation is past the intent, two-way mode is left, or another file create awaits too, and no confirmation is running, no run ever settles the intent. |
| `FileCreateConfirmation.SettlesIffFenced` | crates/nubisync-cli/src/main.rs:3505-3781 | With no confirmation running, an awaiting intent can still be settled if and only if the durable cursor is the one from before its submission, the local generation is the one it was planned on, the root is in two-way mode, and no other file create awaits. |
| `FileCreateConfirmation.CrashCanStrand` | crates/nubisync-cli/src/main.rs:3753-3781 | From every start without another awaiting file create there is a run with one crash that strands the intent although its file stands exactly as it should. |
| `FileCreateConfirmation.SettlingOtherStrands` | crates/nubisync-storage/src/lib.rs:2945-2980 | From every start there is a run without crash or interference in which another creation is settled while the intent awaits; its fence holds, its file is in place, and it is stranded. |
| `FileCreateConfirmation.LeavingTwoWayStrands` | crates/nubisync-cli/src/main.rs:4601-4646 | The same by leaving two-way mode while the intent awaits. |
| `FileCreateConfirmation.RivalStrands` | crates/nubisync-cli/src/main.rs:3542-3544 | The same by a second file create that comes to await. |
| `FileCreateRecovery.RecoveryFindsExact` | crates/nubisync-cli/src/main.rs:2413-2552 | From every safe submitted state whose file stands, recovery leads to awaiting confirmation with the version that stands, in the same attempt. |
| `FileCreateRecovery.RecoveryFindsLate` | crates/nubisync-cli/src/main.rs:2413-2600 | The same when the file appears only between the two lookups. |
| `FileCreateRecovery.RecoveryHashesFirst` | crates/nubisync-cli/src/main.rs:2340-2367 | The same without a stored digest, which is stored first. |
| `FileCreateRecovery.RecoveryRestarts` | crates/nubisync-cli/src/main.rs:2537-2800 | When nothing stands, recovery opens a new attempt that puts the file in place, fenced at the cursor of the restart. |
| `FileCreateRecovery.ConflictIsRecovered` | crates/nubisync-cli/src/main.rs:3846-3995 | A conflict of a first attempt whose exact file stands at the recorded version or later can be recovered to confirmed. |
| `FileCreateRecovery.ClashOnlyByMismatch` | crates/nubisync-cli/src/main.rs:2290-2300 | A command comes to store a conflict only on a mismatch, or on a foreign checksum of its own upload. |
| `FileCreateRecovery.ConflictOnlyByClash` | crates/nubisync-cli/src/main.rs:2178-2260 | A submitted row turns to conflict only through such a command. |
| `FileCreateRecovery.ClashIsStored` | crates/nubisync-cli/src/main.rs:2178-2260 | A clash seen on the current row turns it to conflict, and one on an older row changes nothing. |
| `FileCreateRecovery.FirstLookupLeads` | crates/nubisync-cli/src/main.rs:2290-2300 | The first lookup settles what is exact, clashes on a mismatch, and goes on when nothing stands. |
| `FileCreateRecovery.SecondLookupLeads` | crates/nubisync-cli/src/main.rs:2537-2600 | The second lookup does the same, and leads to a restart when nothing stands. |
| `FileCreateRecovery.CompletionLeads` | crates/nubisync-cli/src/main.rs:2182-2220 | A completion is judged by its checksum, or without one by a lookup. |

## Assumptions

- The executor's step meaning comes from the design notes: creating and materializing record a
  current receipt (docs/PHASE_5.md:173-174, docs/PHASE_5.md:431-433, docs/PHASE_5.md:466-468), and
  deleting removes the entry and then its receipt (docs/PHASE_5.md:274-277, docs/PHASE_5.md:367-368).
  Verifying and replacing are modelled on success, as leaving a current receipt.
- The scanned local tree is prefix-closed for the execution results; the planner does not check it.
- Subtree deletion is called on a target that is on no parent cycle, and no change other than a
  root change carries the selected root's id.
- The provider answers lookups and completions truthfully, its change feed and the catalog show the
  target only as it was at some time, it keeps at most one file under an id, and it never reuses a
  change cursor. It may leave out checksums and sizes, receive late, and change files at will.
- One root is configured, as the file-create commands demand. Other intents act on the modelled one
  only by moving the change cursor, the local generation and the pending events, and by awaiting
  confirmation themselves. The local observation stays valid in two-way mode: only receive-only
  commands invalidate it (crates/nubisync-daemon/src/lib.rs:7284-7290).
- SHA-256 is an arbitrary function of the bytes. The open file yields one fixed sequence of bytes in
  one run of a command, which may differ between runs.
- Strings are sequences of code points, whose order is that of their UTF-8 bytes.

## Left out

- HTTP, OAuth, keyring, SQLite, the filesystem and clocks: their answers are parameters or steps.
- Command dispatch, printing, debug redaction, telemetry, token lifetimes, and the injected proof faults.
- `plan(mode, divergence)`, the enum name parsers and the directory and file target filters: one branch each.
- JSON field checks, MIME types and checksum formats in the Drive client; timestamps of the intent row.
- Validation in the constructors of local entries and receipts: the planners are proved for all values.
- Folder creation and settlement themselves, of which the protocol sees only the effects on the durable facts around an intent, and the daemon's phases around the convergence plan.
- `ConvergencePlanner.ListActions`: the standard library sort is stood in for by an insertion sort; the comparator is total on drafts, so the result is the same.
- `ConvergencePlan.PlanReceiveOnlyConvergence`: the three counters of settled paths are counted in a loop of their own, not inside the first pass.
- `TreeListing.BuildRemoteExpectedPaths`: an entry carries the whole item, not only its kind, id and size.
- `Hydration.ValidateHydration`: memory limits and integer widths of the counters are not modelled.
- `CatalogCommit.CommitMutations`: the cursor checks, the item count and the invalidation of materialization receipts in the same transaction are not modelled.
- `DriveAncestry.ResolveItemMembership`: a failed metadata request is one kind of error.
- `UploadLoop.UploadFile`: one loop stands for the submission and the recovery loop, which differ only in the stored evidence; the status-probe and prefix-recovery counters are only printed.
- `FileCreateSafety.CrashSafety`: the checks of the provider cursor, parent authority and local identity, and failed requests, are environment choices: a command may stop there at any time.
- `FileCreateConfirmation.SettlesIffFenced`: that an intent can be settled means that some run settles it, in which requests are answered, the window fits the page limit, its batch executes, and a superseded source event of the same generation is journaled again; an open change window is taken to start at the durable cursor, as it does after the initial catch-up.
- `FileCreateEvidence.ScanTargetChanges`: the counter is not bounded by a machine word.
- `DriveProvider.BatchThroughDrive`: all Drive errors are one provider failure, and Drive holds one forest while the batch runs.
