/**
 What a plan lists, read off the expected tree, the local tree and the receipts: for each kind of action exactly
 when it is listed, how the settled paths are counted, and in which order the actions stand.
 */
module ConvergenceActions {
  import opened Wrappers
  import opened RemoteCatalog
  import opened Sorting
  import opened Paths
  import opened ExpectedTree
  import opened Materialization
  import opened ConvergenceDecision
  import opened ConvergencePlan

  /** The plan has an action of this kind for this path, naming this id. */
  ghost predicate Lists(plan: Plan, kind: ActionKind, id: Option<Id>, p: string) {
    Action(kind, id, p, |Split(p)|) in plan.actions
  }

  /** The expected item at `p` is of this kind and id. */
  predicate Expects(e: Expected, p: string, kind: RemoteItemKind, id: Id) {
    p in e && e[p].kind == kind && e[p].remoteId == id
  }

  predicate HasLocal(local: Local, p: string, kind: LocalKind) {
    p in local && local[p] == kind
  }

  /** The one receipt for the id, and the one at the path, is this one. */
  predicate HasReceipt(receipts: Receipts, id: Id, p: string, kind: LocalKind, state: ReceiptState) {
    && id in receipts.byId && receipts.byId[id] == Receipt(id, p, kind, state)
    && p in receipts.byPath && receipts.byPath[p] == Receipt(id, p, kind, state)
  }

  /** Neither the id nor the path has a receipt. */
  predicate Unowned(receipts: Receipts, id: Id, p: string) {
    id !in receipts.byId && p !in receipts.byPath
  }

  /** No receipts speak of the id or the path, or one speaks of both, with this kind. */
  predicate Undisputed(receipts: Receipts, id: Id, p: string, kind: LocalKind) {
    || Unowned(receipts, id, p)
    || HasReceipt(receipts, id, p, kind, Current)
    || HasReceipt(receipts, id, p, kind, Stale)
  }

  /** An id that no expected item has any more. */
  predicate IsGone(e: Expected, id: Id) {
    forall q :: q in e ==> e[q].remoteId != id
  }

  predicate NothingBelow(local: Local, p: string) {
    forall q :: q in local ==> !(Split(p) < Split(q))
  }

  lemma {:induction false} ListsIff(plan: Plan, e: Expected, local: Local, receipts: Receipts, kind: ActionKind,
                                    id: Option<Id>, p: string)
    requires IsPlan(plan, e, local, receipts)
    ensures Lists(plan, kind, id, p) <==> Decide(p, e, local, receipts) == Some(Draft(kind, id, p))
  {
    DecisionAt(p, e, local, receipts);
    var a := Action(kind, id, p, |Split(p)|);
    assert a in plan.actions <==>
           p in Decisions(e, local, receipts) && a == ActionOf(Decisions(e, local, receipts)[p]);
  }

  /** What consistency says about one id and one path: their receipts are one, or speak of neither together. */
  predicate Paired(receipts: Receipts, id: Id, p: string) {
    && (id in receipts.byId ==> receipts.byId[id].remoteId == id)
    && (p in receipts.byPath ==> receipts.byPath[p].relativePath == p)
    && (id in receipts.byId && receipts.byId[id].relativePath == p
        ==> p in receipts.byPath && receipts.byPath[p] == receipts.byId[id])
    && (p in receipts.byPath && receipts.byPath[p].remoteId == id
        ==> id in receipts.byId && receipts.byId[id] == receipts.byPath[p])
  }

  lemma {:induction false} ConsistentIsPaired(receipts: Receipts)
    requires receipts.Consistent()
    ensures forall id, p :: Paired(receipts, id, p)
  {
  }

  /** The receipts object exactly when the paired lookups do. */
  lemma {:induction false} UndisputedIff(item: RemoteItem, p: string, receipts: Receipts)
    requires Paired(receipts, item.remoteId, p)
    ensures var kind := if item.kind.Folder? then LocalDirectory else LocalFile;
            ReceiptConflict(item, p, receipts) <==> !Undisputed(receipts, item.remoteId, p, kind)
    ensures !ReceiptConflict(item, p, receipts) ==>
              (item.remoteId !in receipts.byId <==> Unowned(receipts, item.remoteId, p))
  {
    var id := item.remoteId;
    if id in receipts.byId && receipts.byId[id].relativePath == p {
      var receipt := receipts.byId[id];
      assert receipt == Receipt(id, p, receipt.kind, receipt.state) && receipts.byPath[p] == receipt;
      assert receipt.state == Current || receipt.state == Stale;
      assert HasReceipt(receipts, id, p, receipt.kind, receipt.state);
    }
  }

  /** An expected path, decided. */
  lemma {:induction false} ExpectedDecided(e: Expected, local: Local, receipts: Receipts, p: string)
    requires p in e && Paired(receipts, e[p].remoteId, p)
    ensures var id, kind := e[p].remoteId, DecideExpected(e[p], p, local, receipts);
            && (kind == Some(CreateDirectory)
                <==> e[p].kind.Folder? && p !in local && Undisputed(receipts, id, p, LocalDirectory))
            && (kind == Some(MaterializeMissingFile)
                <==> e[p].kind.File? && p !in local && Undisputed(receipts, id, p, LocalFile))
            && (kind == Some(VerifyExistingFile)
                <==> e[p].kind.File? && HasLocal(local, p, LocalFile) && Unowned(receipts, id, p))
            && (kind == Some(RevalidateStaleFileReplacement)
                <==> e[p].kind.File? && HasLocal(local, p, LocalFile) && HasReceipt(receipts, id, p, LocalFile, Stale))
            && (kind == Some(Blocked) <==> IsObstructed(e[p], p, local, receipts))
            && kind != Some(RevalidateStaleFileDeletion) && kind != Some(DeleteOwnedEmptyDirectory)
            && (kind.None? <==> || IsOwnedFile(e, local, receipts, p) || IsOwnedDirectory(e, local, receipts, p)
                                || IsUnownedDirectory(e, local, receipts, p))
  {
    UndisputedIff(e[p], p, receipts);
  }

  /** A found path that nobody expects, decided. */
  lemma {:induction false} LocalOnlyDecided(e: Expected, local: Local, receipts: Receipts, p: string)
    requires p in local && (p in receipts.byPath ==> Paired(receipts, receipts.byPath[p].remoteId, p))
    ensures var draft := DecideLocalOnly(p, e, local, receipts);
            && draft.remoteId == (if p in receipts.byPath then Some(receipts.byPath[p].remoteId) else None)
            && draft.relativePath == p
            && draft.kind == (if !MayGo(p, e, local, receipts) then Blocked
                              else if local[p].LocalFile? then RevalidateStaleFileDeletion
                              else DeleteOwnedEmptyDirectory)
  {
    EmptyIffNothingBelow(local, p);
    assert forall x :: IsGone(e, x) <==> x !in ExpectedIds(e);
  }

  lemma {:induction false} EmptyIffNothingBelow(local: Local, p: string)
    ensures IsEmptyIn(local, p) <==> NothingBelow(local, p)
  {
    forall q | q in local
      ensures IsBelow(q, p) <==> Split(p) < Split(q)
    {
      BelowIffProperPrefix(q, p);
    }
  }

  /** A path's decision, whatever it is. */
  lemma {:induction false} PathDecided(e: Expected, local: Local, receipts: Receipts, p: string)
    requires receipts.Consistent()
    ensures p in e ==> Paired(receipts, e[p].remoteId, p)
    ensures p in receipts.byPath ==> Paired(receipts, receipts.byPath[p].remoteId, p)
  {
    ConsistentIsPaired(receipts);
  }

  /** A directory is created exactly where a folder is expected, nothing is found, and the receipts do not object. */
  lemma {:induction false} CreateDirectoryIff(plan: Plan, e: Expected, local: Local, receipts: Receipts, id: Id,
                                              p: string)
    requires IsPlan(plan, e, local, receipts) && receipts.Consistent()
    ensures Lists(plan, CreateDirectory, Some(id), p)
            <==> Expects(e, p, Folder, id) && p !in local && Undisputed(receipts, id, p, LocalDirectory)
  {
    ListsIff(plan, e, local, receipts, CreateDirectory, Some(id), p);
    PathDecided(e, local, receipts, p);
    if p in e {
      ExpectedDecided(e, local, receipts, p);
    } else if p in local {
      LocalOnlyDecided(e, local, receipts, p);
    }
  }

  /** A file is materialized exactly where one is expected, nothing is found, and the receipts do not object. */
  lemma {:induction false} MaterializeIff(plan: Plan, e: Expected, local: Local, receipts: Receipts, id: Id, p: string)
    requires IsPlan(plan, e, local, receipts) && receipts.Consistent()
    ensures Lists(plan, MaterializeMissingFile, Some(id), p)
            <==> Expects(e, p, File, id) && p !in local && Undisputed(receipts, id, p, LocalFile)
  {
    ListsIff(plan, e, local, receipts, MaterializeMissingFile, Some(id), p);
    PathDecided(e, local, receipts, p);
    if p in e {
      ExpectedDecided(e, local, receipts, p);
    } else if p in local {
      LocalOnlyDecided(e, local, receipts, p);
    }
  }

  /** A file is verified exactly where one is expected and found that nothing owns. */
  lemma {:induction false} VerifyIff(plan: Plan, e: Expected, local: Local, receipts: Receipts, id: Id, p: string)
    requires IsPlan(plan, e, local, receipts) && receipts.Consistent()
    ensures Lists(plan, VerifyExistingFile, Some(id), p)
            <==> Expects(e, p, File, id) && HasLocal(local, p, LocalFile) && Unowned(receipts, id, p)
  {
    ListsIff(plan, e, local, receipts, VerifyExistingFile, Some(id), p);
    PathDecided(e, local, receipts, p);
    if p in e {
      ExpectedDecided(e, local, receipts, p);
    } else if p in local {
      LocalOnlyDecided(e, local, receipts, p);
    }
  }

  /** A file is replaced exactly where one is expected and found whose receipt is stale. */
  lemma {:induction false} ReplaceIff(plan: Plan, e: Expected, local: Local, receipts: Receipts, id: Id, p: string)
    requires IsPlan(plan, e, local, receipts) && receipts.Consistent()
    ensures Lists(plan, RevalidateStaleFileReplacement, Some(id), p)
            <==> && Expects(e, p, File, id) && HasLocal(local, p, LocalFile)
                 && HasReceipt(receipts, id, p, LocalFile, Stale)
  {
    ListsIff(plan, e, local, receipts, RevalidateStaleFileReplacement, Some(id), p);
    PathDecided(e, local, receipts, p);
    if p in e {
      ExpectedDecided(e, local, receipts, p);
    } else if p in local {
      LocalOnlyDecided(e, local, receipts, p);
    }
  }

  /** A file is deleted exactly where none is expected, and one is found whose receipt is stale and whose id is gone. */
  lemma {:induction false} DeleteFileIff(plan: Plan, e: Expected, local: Local, receipts: Receipts, id: Id, p: string)
    requires IsPlan(plan, e, local, receipts) && receipts.Consistent()
    ensures Lists(plan, RevalidateStaleFileDeletion, Some(id), p)
            <==> && p !in e && HasLocal(local, p, LocalFile) && HasReceipt(receipts, id, p, LocalFile, Stale)
                 && IsGone(e, id)
  {
    ListsIff(plan, e, local, receipts, RevalidateStaleFileDeletion, Some(id), p);
    PathDecided(e, local, receipts, p);
    if p in e {
      ExpectedDecided(e, local, receipts, p);
    } else if p in local {
      LocalOnlyDecided(e, local, receipts, p);
    }
  }

  /** A directory is deleted exactly when the same holds of it and nothing is found below it. */
  lemma {:induction false} DeleteDirectoryIff(plan: Plan, e: Expected, local: Local, receipts: Receipts, id: Id,
                                              p: string)
    requires IsPlan(plan, e, local, receipts) && receipts.Consistent()
    ensures Lists(plan, DeleteOwnedEmptyDirectory, Some(id), p)
            <==> && p !in e && HasLocal(local, p, LocalDirectory) && HasReceipt(receipts, id, p, LocalDirectory, Stale)
                 && IsGone(e, id) && NothingBelow(local, p)
  {
    ListsIff(plan, e, local, receipts, DeleteOwnedEmptyDirectory, Some(id), p);
    PathDecided(e, local, receipts, p);
    if p in e {
      ExpectedDecided(e, local, receipts, p);
    } else if p in local {
      LocalOnlyDecided(e, local, receipts, p);
    }
  }

  /** Why an expected path is blocked: the receipts object, the kinds clash, or a directory's receipt is stale. */
  predicate IsObstructed(item: RemoteItem, p: string, local: Local, receipts: Receipts) {
    var kind := if item.kind.Folder? then LocalDirectory else LocalFile;
    || !Undisputed(receipts, item.remoteId, p, kind)
    || (p in local && local[p] != kind)
    || (HasLocal(local, p, LocalDirectory) && HasReceipt(receipts, item.remoteId, p, LocalDirectory, Stale))
  }

  /** A found path that nobody expects may go when a stale receipt of its kind owns it, and its id is gone. */
  predicate MayGo(p: string, e: Expected, local: Local, receipts: Receipts)
    requires p in local
  {
    && p in receipts.byPath && receipts.byPath[p].state.Stale? && receipts.byPath[p].kind == local[p]
    && IsGone(e, receipts.byPath[p].remoteId) && (local[p].LocalDirectory? ==> NothingBelow(local, p))
  }

  /** When a path is blocked, and with which id: it is obstructed, may not go, or is known from receipts only. */
  lemma {:induction false} BlockedPathIff(plan: Plan, e: Expected, local: Local, receipts: Receipts, id: Option<Id>,
                                          p: string)
    requires IsPlan(plan, e, local, receipts) && receipts.Consistent()
    ensures p in e ==> (Lists(plan, Blocked, id, p)
                        <==> id == Some(e[p].remoteId) && IsObstructed(e[p], p, local, receipts))
    ensures p !in e && p in local ==>
              (Lists(plan, Blocked, id, p)
               <==> && id == (if p in receipts.byPath then Some(receipts.byPath[p].remoteId) else None)
                    && !MayGo(p, e, local, receipts))
    ensures p !in e && p !in local ==>
              (Lists(plan, Blocked, id, p) <==> p in receipts.byPath && id == Some(receipts.byPath[p].remoteId))
  {
    ListsIff(plan, e, local, receipts, Blocked, id, p);
    PathDecided(e, local, receipts, p);
    if p in e {
      ExpectedDecided(e, local, receipts, p);
    } else if p in local {
      LocalOnlyDecided(e, local, receipts, p);
    }
  }

  /** The three ways in which an expected path needs nothing. */
  predicate IsOwnedFile(e: Expected, local: Local, receipts: Receipts, p: string) {
    && p in e && e[p].kind.File? && HasLocal(local, p, LocalFile)
    && HasReceipt(receipts, e[p].remoteId, p, LocalFile, Current)
  }

  predicate IsOwnedDirectory(e: Expected, local: Local, receipts: Receipts, p: string) {
    && p in e && e[p].kind.Folder? && HasLocal(local, p, LocalDirectory)
    && HasReceipt(receipts, e[p].remoteId, p, LocalDirectory, Current)
  }

  predicate IsUnownedDirectory(e: Expected, local: Local, receipts: Receipts, p: string) {
    && p in e && e[p].kind.Folder? && HasLocal(local, p, LocalDirectory)
    && Unowned(receipts, e[p].remoteId, p)
  }

  predicate IsUnsettled(e: Expected, local: Local, receipts: Receipts, p: string) {
    && (p in e || p in local || p in receipts.byPath)
    && !IsOwnedFile(e, local, receipts, p) && !IsOwnedDirectory(e, local, receipts, p)
    && !IsUnownedDirectory(e, local, receipts, p)
  }

  ghost predicate IsListed(plan: Plan, p: string) {
    exists kind, id :: Lists(plan, kind, id, p)
  }

  lemma {:induction false} DecidedIffUnsettled(e: Expected, local: Local, receipts: Receipts, p: string)
    requires p in e ==> Paired(receipts, e[p].remoteId, p)
    ensures Decide(p, e, local, receipts).Some? <==> IsUnsettled(e, local, receipts, p)
  {
    if p in e {
      ExpectedDecided(e, local, receipts, p);
    }
  }

  /** A path is in the plan exactly when it is known and not settled in one of the three ways. */
  lemma {:induction false} UnsettledIff(plan: Plan, e: Expected, local: Local, receipts: Receipts, p: string)
    requires IsPlan(plan, e, local, receipts) && receipts.Consistent()
    ensures IsListed(plan, p) <==> IsUnsettled(e, local, receipts, p)
  {
    PathListedIff(plan, e, local, receipts, p);
    PathDecided(e, local, receipts, p);
    DecidedIffUnsettled(e, local, receipts, p);
  }

  /** What is counted beside the actions: the paths settled in each of the three ways. */
  lemma {:induction false} SettledCounts(plan: Plan, e: Expected, local: Local, receipts: Receipts)
    requires IsPlan(plan, e, local, receipts) && receipts.Consistent()
    ensures plan.currentOwnedFiles == |set p | p in e && IsOwnedFile(e, local, receipts, p)|
    ensures plan.currentOwnedDirectories == |set p | p in e && IsOwnedDirectory(e, local, receipts, p)|
    ensures plan.unownedMatchingDirectories == |set p | p in e && IsUnownedDirectory(e, local, receipts, p)|
  {
    SettledSets(e, local, receipts);
  }

  lemma {:induction false} PathListedIff(plan: Plan, e: Expected, local: Local, receipts: Receipts, p: string)
    requires IsPlan(plan, e, local, receipts)
    ensures IsListed(plan, p) <==> Decide(p, e, local, receipts).Some?
  {
    DecisionAt(p, e, local, receipts);
    if Decide(p, e, local, receipts).Some? {
      var draft := Decide(p, e, local, receipts).value;
      ListsIff(plan, e, local, receipts, draft.kind, draft.remoteId, p);
    }
    if kind, id :| Lists(plan, kind, id, p) {
      ListsIff(plan, e, local, receipts, kind, id, p);
    }
  }

  lemma {:induction false} SettledSets(e: Expected, local: Local, receipts: Receipts)
    requires receipts.Consistent()
    ensures SettledPaths(e, local, receipts, OwnedFile) == set p | p in e && IsOwnedFile(e, local, receipts, p)
    ensures SettledPaths(e, local, receipts, OwnedDirectory)
            == set p | p in e && IsOwnedDirectory(e, local, receipts, p)
    ensures SettledPaths(e, local, receipts, UnownedDirectory)
            == set p | p in e && IsUnownedDirectory(e, local, receipts, p)
  {
  }

  predicate IsFileWork(kind: ActionKind) {
    kind.MaterializeMissingFile? || kind.VerifyExistingFile? || kind.RevalidateStaleFileReplacement?
  }

  /** Creations first, then work on expected files, then file deletions, directory deletions, and blocked paths. */
  predicate SameStage(a: ActionKind, b: ActionKind) {
    a == b || (IsFileWork(a) && IsFileWork(b))
  }

  ghost predicate StagesFit(a: ActionKind, b: ActionKind) {
    && (b.CreateDirectory? ==> a.CreateDirectory?)
    && (IsFileWork(b) ==> a.CreateDirectory? || IsFileWork(a))
    && (b.RevalidateStaleFileDeletion? ==> !a.DeleteOwnedEmptyDirectory? && !a.Blocked?)
    && (b.DeleteOwnedEmptyDirectory? ==> !a.Blocked?)
  }

  /** Within a stage: shallower first, but deeper first among directory deletions; then by path. */
  ghost predicate PathsFit(kind: ActionKind, p: string, q: string) {
    || (if kind.DeleteOwnedEmptyDirectory? then |Split(q)| < |Split(p)| else |Split(p)| < |Split(q)|)
    || (|Split(p)| == |Split(q)| && exists k: nat :: SmallerAt(p, q, k))
  }

  lemma {:induction false} BeforeFits(a: Action, b: Action)
    requires ActionBefore(a, b) && a.depth == |Split(a.relativePath)| && b.depth == |Split(b.relativePath)|
    ensures StagesFit(a.kind, b.kind)
    ensures SameStage(a.kind, b.kind) ==> PathsFit(b.kind, a.relativePath, b.relativePath)
  {
    LessIff(a.relativePath, b.relativePath);
  }

  lemma {:induction false} ListedDepth(plan: Plan, e: Expected, local: Local, receipts: Receipts, a: Action)
    requires IsPlan(plan, e, local, receipts) && a in plan.actions
    ensures a.depth == |Split(a.relativePath)|
  {
  }

  /** Only a blocked action names no id, and every action carries the depth of its path. */
  lemma {:induction false} ActionsAreNamed(plan: Plan, e: Expected, local: Local, receipts: Receipts, a: Action)
    requires IsPlan(plan, e, local, receipts) && a in plan.actions
    ensures a.remoteId.None? ==> a.kind.Blocked?
    ensures a.depth == |Split(a.relativePath)| && Lists(plan, a.kind, a.remoteId, a.relativePath)
  {
    ListedDepth(plan, e, local, receipts, a);
    ListedIsDecided(plan, e, local, receipts, a);
    DecidedIsNamed(e, local, receipts, a.relativePath);
  }

  lemma {:induction false} ListedIsDecided(plan: Plan, e: Expected, local: Local, receipts: Receipts, a: Action)
    requires IsPlan(plan, e, local, receipts) && a in plan.actions
    ensures Decide(a.relativePath, e, local, receipts) == Some(Draft(a.kind, a.remoteId, a.relativePath))
  {
    DecisionAt(a.relativePath, e, local, receipts);
  }

  lemma {:induction false} DecidedIsNamed(e: Expected, local: Local, receipts: Receipts, p: string)
    ensures var draft := Decide(p, e, local, receipts);
            draft.Some? && draft.value.remoteId.None? ==> draft.value.kind.Blocked?
  {
  }

  /** The order of any two actions of a plan. */
  lemma {:induction false} PlanOrder(plan: Plan, e: Expected, local: Local, receipts: Receipts, i: nat, j: nat)
    requires IsPlan(plan, e, local, receipts) && i < j < |plan.actions|
    ensures StagesFit(plan.actions[i].kind, plan.actions[j].kind)
    ensures SameStage(plan.actions[i].kind, plan.actions[j].kind)
            ==> PathsFit(plan.actions[j].kind, plan.actions[i].relativePath, plan.actions[j].relativePath)
  {
    var a, b := plan.actions[i], plan.actions[j];
    ListedDepth(plan, e, local, receipts, a);
    ListedDepth(plan, e, local, receipts, b);
    assert ActionBefore(a, b);
    BeforeFits(a, b);
  }
}
