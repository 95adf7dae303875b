/**
 The receive-only decision for one path, as a function of the expected tree, the local tree and
 the ownership receipts; and the plan as the canonical list of all decisions.
 */
module ConvergenceDecision {
  import opened Wrappers
  import opened RemoteCatalog
  import opened Sorting
  import opened Paths
  import opened ExpectedTree
  import opened Materialization

  datatype ReceiptState = Current | Stale

  datatype Receipt = Receipt(remoteId: Id, relativePath: string, kind: LocalKind, state: ReceiptState)

  /** The two receipt lookups of the planner. */
  datatype Receipts = Receipts(byId: map<Id, Receipt>, byPath: map<string, Receipt>) {
    /** Both lookups hold the same receipts, each under its own id and path. */
    ghost predicate Consistent() {
      && (forall x :: x in byId ==>
            byId[x].remoteId == x && byId[x].relativePath in byPath && byPath[byId[x].relativePath] == byId[x])
      && (forall p :: p in byPath ==>
            byPath[p].relativePath == p && byPath[p].remoteId in byId && byId[byPath[p].remoteId] == byPath[p])
    }
  }

  datatype ActionKind =
    | CreateDirectory
    | MaterializeMissingFile
    | VerifyExistingFile
    | RevalidateStaleFileReplacement
    | RevalidateStaleFileDeletion
    | DeleteOwnedEmptyDirectory
    | Blocked

  datatype Draft = Draft(kind: ActionKind, remoteId: Option<Id>, relativePath: string)

  function ExpectedIds(e: Expected): set<Id> {
    set p | p in e :: e[p].remoteId
  }

  /** A receipt for the item elsewhere or of another kind, or another item's receipt at the path. */
  predicate ReceiptConflict(item: RemoteItem, p: string, receipts: Receipts) {
    || (item.remoteId in receipts.byId
        && (receipts.byId[item.remoteId].relativePath != p
            || receipts.byId[item.remoteId].kind != LocalKindFor(item.kind)))
    || (p in receipts.byPath && receipts.byPath[p].remoteId != item.remoteId)
  }

  /** What an expected path needs; nothing when it is already as it should be. */
  function DecideExpected(item: RemoteItem, p: string, local: Local, receipts: Receipts): Option<ActionKind> {
    var id := item.remoteId;
    if ReceiptConflict(item, p, receipts) then Some(Blocked)
    else if p !in local then Some(if item.kind.Folder? then CreateDirectory else MaterializeMissingFile)
    else if local[p] != LocalKindFor(item.kind) then Some(Blocked)
    else if id in receipts.byId then
      if receipts.byId[id].state.Current? then None
      else Some(if local[p].LocalDirectory? then Blocked else RevalidateStaleFileReplacement)
    else if local[p].LocalDirectory? then None
    else Some(VerifyExistingFile)
  }

  /** No scanned entry lies below the path. */
  predicate IsEmptyIn(local: Local, p: string) {
    forall q :: q in local ==> !IsBelow(q, p)
  }

  /** What a local path outside the expected tree needs. */
  function DecideLocalOnly(p: string, e: Expected, local: Local, receipts: Receipts): Draft
    requires p in local
  {
    if p !in receipts.byPath then Draft(Blocked, None, p)
    else
      var receipt := receipts.byPath[p];
      var owner := Some(receipt.remoteId);
      if !receipt.state.Stale? || receipt.kind != local[p] || receipt.remoteId in ExpectedIds(e) then
        Draft(Blocked, owner, p)
      else if local[p].LocalFile? then Draft(RevalidateStaleFileDeletion, owner, p)
      else if IsEmptyIn(local, p) then Draft(DeleteOwnedEmptyDirectory, owner, p)
      else Draft(Blocked, owner, p)
  }

  /** The one decision of a path. */
  function Decide(p: string, e: Expected, local: Local, receipts: Receipts): Option<Draft> {
    if p in e then
      var kind := DecideExpected(e[p], p, local, receipts);
      if kind.None? then None else Some(Draft(kind.value, Some(e[p].remoteId), p))
    else if p in local then Some(DecideLocalOnly(p, e, local, receipts))
    else if p in receipts.byPath then Some(Draft(Blocked, Some(receipts.byPath[p].remoteId), p))
    else None
  }

  type Drafts = map<string, Draft>

  /** Every decided path with its draft. */
  function Decisions(e: Expected, local: Local, receipts: Receipts): Drafts {
    map p | p in e.Keys + local.Keys + receipts.byPath.Keys && Decide(p, e, local, receipts).Some?
      :: Decide(p, e, local, receipts).value
  }

  lemma {:induction false} DecisionAt(p: string, e: Expected, local: Local, receipts: Receipts)
    ensures p in Decisions(e, local, receipts) <==> Decide(p, e, local, receipts).Some?
    ensures p in Decisions(e, local, receipts)
            ==> Decisions(e, local, receipts)[p] == Decide(p, e, local, receipts).value
    ensures p in Decisions(e, local, receipts) ==> Decisions(e, local, receipts)[p].relativePath == p
  {}

  datatype Action = Action(kind: ActionKind, remoteId: Option<Id>, relativePath: string, depth: nat)

  function ActionOf(draft: Draft): Action {
    Action(draft.kind, draft.remoteId, draft.relativePath, Depth(draft.relativePath))
  }

  function Priority(kind: ActionKind): nat {
    match kind
    case CreateDirectory => 0
    case MaterializeMissingFile | VerifyExistingFile | RevalidateStaleFileReplacement => 1
    case RevalidateStaleFileDeletion => 2
    case DeleteOwnedEmptyDirectory => 3
    case Blocked => 4
  }

  /** The sort comparator: priority, then depth (deepest first among directory deletions), then path. */
  predicate ActionBefore(a: Action, b: Action) {
    if Priority(a.kind) != Priority(b.kind) then Priority(a.kind) < Priority(b.kind)
    else if a.depth != b.depth then
      if a.kind.DeleteOwnedEmptyDirectory? && b.kind.DeleteOwnedEmptyDirectory? then
        b.depth < a.depth else a.depth < b.depth
    else Less(a.relativePath, b.relativePath)
  }

  /** The comparator is a strict order, total on actions for different paths. */
  lemma {:induction false} ActionOrder()
    ensures IsStrictOrder(ActionBefore)
    ensures forall a: Action, b: Action :: a.relativePath != b.relativePath ==> ActionBefore(a, b) || ActionBefore(b, a)
  {
    forall a: Action, b: Action
      ensures !(ActionBefore(a, b) && ActionBefore(b, a))
      ensures a.relativePath != b.relativePath ==> ActionBefore(a, b) || ActionBefore(b, a)
    {
      LessIsTotal(a.relativePath, b.relativePath);
    }
    forall a: Action, b: Action, c: Action
      ensures ActionBefore(a, b) && ActionBefore(b, c) ==> ActionBefore(a, c)
    {
      LessIsTransitive(a.relativePath, b.relativePath, c.relativePath);
    }
  }

  /** `actions` is the canonical list of `drafts`. */
  ghost predicate ListsDrafts(actions: seq<Action>, drafts: Drafts) {
    && (forall p :: p in drafts ==> drafts[p].relativePath == p)
    && StrictlySorted(ActionBefore, actions)
    && (forall a :: a in actions <==> a.relativePath in drafts && a == ActionOf(drafts[a.relativePath]))
  }

  lemma {:induction false} PlanIsUnique(a: seq<Action>, b: seq<Action>, drafts: Drafts)
    requires ListsDrafts(a, drafts) && ListsDrafts(b, drafts)
    ensures a == b
  {
    ActionOrder();
    SortedIsUnique(ActionBefore, a, b);
  }

  /** Removing the draft of the first action leaves the rest of the list. */
  lemma {:induction false} TailListsRest(actions: seq<Action>, drafts: Drafts)
    requires ListsDrafts(actions, drafts) && actions != []
    ensures actions[0].relativePath in drafts
    ensures ListsDrafts(actions[1..], drafts - {actions[0].relativePath})
  {
    ActionOrder();
    assert actions[0] in actions;
    forall a
      ensures a in actions[1..]
              <==> a.relativePath in drafts - {actions[0].relativePath} && a == ActionOf(drafts[a.relativePath])
    {
      TailMembers(ActionBefore, actions, a);
    }
  }

  ghost predicate Unblocked(drafts: Drafts) {
    forall p :: p in drafts ==> !drafts[p].kind.Blocked?
  }

  /**
   What deciding a destruction takes: a deletion is of a local path outside the expected tree whose receipt
   is stale, of the same kind, and for an id that is gone, and a directory is empty; a replacement is of a
   local file with a stale file receipt of the expected id and path.
   */
  ghost predicate IsOwned(kind: ActionKind, remoteId: Option<Id>, p: string, e: Expected, local: Local,
                          receipts: Receipts)
  {
    && (kind.RevalidateStaleFileDeletion? || kind.DeleteOwnedEmptyDirectory? ==>
          && p in local && p !in e && p in receipts.byPath && remoteId.Some?
          && receipts.byPath[p] == Receipt(remoteId.value, p, local[p], Stale)
          && remoteId.value !in ExpectedIds(e)
          && (local[p].LocalDirectory? <==> kind.DeleteOwnedEmptyDirectory?)
          && (local[p].LocalDirectory? ==> IsEmptyIn(local, p)))
    && (kind.RevalidateStaleFileReplacement? ==>
          && p in e && e[p].kind.File? && p in local && local[p].LocalFile? && remoteId == Some(e[p].remoteId)
          && e[p].remoteId in receipts.byId
          && receipts.byId[e[p].remoteId] == Receipt(e[p].remoteId, p, LocalFile, Stale))
  }

  lemma {:induction false} DecidedIsOwned(p: string, e: Expected, local: Local, receipts: Receipts)
    requires receipts.Consistent() && p in Decisions(e, local, receipts)
    ensures var draft := Decisions(e, local, receipts)[p];
            IsOwned(draft.kind, draft.remoteId, p, e, local, receipts)
  {
    DecisionAt(p, e, local, receipts);
  }
}
