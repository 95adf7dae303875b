/**
 The in-memory catalog of one selected root: a parent map, and an index from parent to
 children that every operation keeps in exact agreement with it.
 */
module RootCatalogProjection {
  import opened Wrappers
  import opened RemoteCatalog
  import opened Forest
  import opened SubtreeWalk
  import opened CatalogSearch
  import opened Hydration

  datatype Membership = Root | Descendant | Outside | UnresolvedDelete

  datatype Action = Ignore | RevalidateRoot | UpsertItem | DeleteSubtree | HydrateSubtree

  datatype Mutation = UpsertMutation(item: RemoteItem) | DeleteSubtreeMutation(remoteId: Id)

  datatype Resolution = Noop | RootNeedsRevalidation | Mutations(mutations: seq<Mutation>)

  datatype ProjectionError =
    | InvalidChangeContext
    | InvalidRootIdentifier
    | InvalidInitialCatalogItem
    | DuplicateInitialRemoteId
    | IncompleteInitialCatalog
    | HydrationRequired
    | UnexpectedHydration
    | BadHydration(cause: HydrationError)
    | IncompleteProjectedCatalog

  function PlanChange(change: RemoteChange, membership: Membership, previouslyCataloged: bool)
    : Result<Action, ProjectionError>
  {
    match change
    case Delete(_) => (
      match membership
      case Root => Ok(RevalidateRoot)
      case UnresolvedDelete => Ok(if previouslyCataloged then DeleteSubtree else Ignore)
      case _ => Err(InvalidChangeContext))
    case Upsert(item) => (
      match membership
      case UnresolvedDelete => Err(InvalidChangeContext)
      case Root => Ok(RevalidateRoot)
      case Outside => Ok(if previouslyCataloged then DeleteSubtree else Ignore)
      case Descendant =>
        if item.trashed then Ok(if previouslyCataloged then DeleteSubtree else Ignore)
        else if item.kind.File? || previouslyCataloged then Ok(UpsertItem)
        else Ok(HydrateSubtree))
  }

  /** What `apply_change` answers, given whether the changed id is catalogued. */
  ghost function Resolve(change: RemoteChange, membership: Membership, hydration: Option<seq<RemoteItem>>,
                         cataloged: bool)
    : Result<Resolution, ProjectionError>
  {
    match PlanChange(change, membership, cataloged)
    case Err(e) => Err(e)
    case Ok(HydrateSubtree) =>
      if hydration.None? then Err(HydrationRequired)
      else if HydrationVerdict(change.item, hydration.value).Err? then
        Err(BadHydration(HydrationVerdict(change.item, hydration.value).error))
      else Ok(Mutations(Upserts(hydration.value)))
    case Ok(action) =>
      if hydration.Some? then Err(UnexpectedHydration) else PlainResolution(change, action)
  }

  /** The answer when no hydration is involved. */
  function PlainResolution(change: RemoteChange, action: Action): Result<Resolution, ProjectionError> {
    if action.Ignore? then Ok(Noop)
    else if action.RevalidateRoot? then Ok(RootNeedsRevalidation)
    else if action.DeleteSubtree? then Ok(Mutations([DeleteSubtreeMutation(ChangeId(change))]))
    else if change.Upsert? then Ok(Mutations([UpsertMutation(change.item)]))
    else Err(InvalidChangeContext)
  }

  function Upserts(items: seq<RemoteItem>): seq<Mutation> {
    seq(|items|, i requires 0 <= i < |items| => UpsertMutation(items[i]))
  }

  /** One upsert for each item, of the item itself, in order. */
  predicate EmitsItems(ms: seq<Mutation>, items: seq<RemoteItem>) {
    && |ms| == |items|
    && forall i :: 0 <= i < |ms| ==> ms[i].UpsertMutation? && ms[i].item == items[i]
  }

  /** The upsert of the changed item, or the deletion of its subtree. */
  predicate EmitsOne(ms: seq<Mutation>, change: RemoteChange) {
    && |ms| == 1
    && match ms[0]
       case UpsertMutation(item) => change.Upsert? && item == change.item && !item.trashed
       case DeleteSubtreeMutation(remoteId) => remoteId == ChangeId(change)
  }

  /** Only the live change of a folder that is not catalogued yet, below the root, may come with a hydration. */
  predicate CallsForHydration(change: RemoteChange, membership: Membership, cataloged: bool) {
    change.Upsert? && membership.Descendant? && !change.item.trashed && change.item.kind.Folder? && !cataloged
  }

  /** A change that takes its id out of the selected subtree. */
  predicate TakesOut(change: RemoteChange, membership: Membership) {
    if change.Delete? then membership.UnresolvedDelete?
    else membership.Outside? || (membership.Descendant? && change.item.trashed)
  }

  /** What a change is answered in every context, in terms of the change alone. */
  lemma {:induction false} ChangeAnswers(change: RemoteChange, membership: Membership,
                                         hydration: Option<seq<RemoteItem>>, cataloged: bool)
    ensures var r := Resolve(change, membership, hydration, cataloged);
            var mismatch := if change.Delete? then membership.Descendant? || membership.Outside?
                            else membership.UnresolvedDelete?;
            if mismatch then r == Err(InvalidChangeContext)
            else if CallsForHydration(change, membership, cataloged) then
              if hydration.None? then r == Err(HydrationRequired)
              else if IsWholeSubtree(change.item, hydration.value) then
                r.Ok? && r.value.Mutations? && EmitsItems(r.value.mutations, hydration.value)
              else r.Err? && r.error.BadHydration?
            else if hydration.Some? then r == Err(UnexpectedHydration)
            else if membership.Root? then r == Ok(RootNeedsRevalidation)
            else if !TakesOut(change, membership) then r == Ok(Mutations([UpsertMutation(change.item)]))
            else if cataloged then r == Ok(Mutations([DeleteSubtreeMutation(ChangeId(change))]))
            else r == Ok(Noop)
  {
    if CallsForHydration(change, membership, cataloged) && hydration.Some? {
      VerdictIff(change.item, hydration.value);
    }
  }

  /** One emitted mutation, applied to a plain parent map. */
  ghost function ReplayOne(ps: Parents, m: Mutation): Parents {
    match m
    case UpsertMutation(item) => ps[item.remoteId := item.parentRemoteId]
    case DeleteSubtreeMutation(remoteId) => WithoutSubtree(ps, remoteId)
  }

  ghost function Replay(ps: Parents, ms: seq<Mutation>): Parents {
    if ms == [] then ps
    else ReplayOne(Replay(ps, ms[..|ms| - 1]), ms[|ms| - 1])
  }

  lemma {:induction false} ReplayConcat(ps: Parents, ms: seq<Mutation>, ns: seq<Mutation>)
    ensures Replay(ps, ms + ns) == Replay(Replay(ps, ms), ns)
    decreases |ns|
  {
    if ns == [] {
      assert ms + ns == ms;
    } else {
      var n := |ns| - 1;
      assert (ms + ns)[..|ms + ns| - 1] == ms + ns[..n];
      ReplayConcat(ps, ms, ns[..n]);
    }
  }

  /** The index after taking child `x` out of the bucket of `p` and dropping an emptied bucket. */
  function Detached(index: map<Id, set<Id>>, p: Id, x: Id): map<Id, set<Id>> {
    if p !in index then index
    else if index[p] - {x} == {} then index - {p}
    else index[p := index[p] - {x}]
  }

  function Attached(index: map<Id, set<Id>>, p: Id, x: Id): map<Id, set<Id>> {
    index[p := (if p in index then index[p] else {}) + {x}]
  }

  lemma {:induction false} IndexBuckets(ps: Parents)
    ensures forall p :: p in IndexOf(ps) <==> Children(ps, p) != {}
    ensures forall p :: p in IndexOf(ps) ==> IndexOf(ps)[p] == Children(ps, p)
  {
    forall p
      ensures p in IndexOf(ps) <==> Children(ps, p) != {}
    {
      if p in IndexOf(ps) {
        var c :| c in ps && ps[c].Some? && ps[c].value == p;
        assert c in Children(ps, p);
      }
      if Children(ps, p) != {} {
        var c :| c in Children(ps, p);
        assert ps[c].value == p;
      }
    }
  }

  /** An index whose buckets are the non-empty child sets is the index. */
  lemma {:induction false} IndexIsUnique(ps: Parents, index: map<Id, set<Id>>)
    requires forall p :: p in index <==> Children(ps, p) != {}
    requires forall p :: p in index ==> index[p] == Children(ps, p)
    ensures index == IndexOf(ps)
  {
    IndexBuckets(ps);
  }

  lemma {:induction false} DetachKeepsIndex(ps: Parents, x: Id)
    requires x in ps
    ensures ps[x].Some? ==> Detached(IndexOf(ps), ps[x].value, x) == IndexOf(ps - {x})
    ensures ps[x].None? ==> IndexOf(ps) == IndexOf(ps - {x})
  {
    IndexBuckets(ps);
    var qs := ps - {x};
    forall p
      ensures Children(qs, p) == if ps[x] == Some(p) then Children(ps, p) - {x} else Children(ps, p)
    {}
    if ps[x].Some? {
      assert x in Children(ps, ps[x].value);
      IndexIsUnique(qs, Detached(IndexOf(ps), ps[x].value, x));
    } else {
      IndexIsUnique(qs, IndexOf(ps));
    }
  }

  lemma {:induction false} AttachKeepsIndex(ps: Parents, x: Id, parent: Option<Id>)
    requires x !in ps
    ensures parent.Some? ==> Attached(IndexOf(ps), parent.value, x) == IndexOf(ps[x := parent])
    ensures parent.None? ==> IndexOf(ps) == IndexOf(ps[x := parent])
  {
    IndexBuckets(ps);
    var qs := ps[x := parent];
    forall p
      ensures Children(qs, p) == if parent == Some(p) then Children(ps, p) + {x} else Children(ps, p)
    {}
    if parent.Some? {
      IndexIsUnique(qs, Attached(IndexOf(ps), parent.value, x));
    } else {
      IndexIsUnique(qs, IndexOf(ps));
    }
  }

  ghost predicate AllAcceptable(root: Id, items: seq<RemoteItem>) {
    forall i :: 0 <= i < |items| ==>
      !Blank(items[i].remoteId) && items[i].remoteId != root && items[i].name != "" && !items[i].trashed
  }

  /** An initial catalog the constructor accepts. */
  ghost predicate IsInitialCatalog(root: Id, items: seq<RemoteItem>) {
    !Blank(root) && AllAcceptable(root, items) && UniqueIds(items) && Complete(ParentsOf(items), root)
  }

  /** The constructor's first complaint about the first `n` items. */
  ghost function FirstCatalogIssue(root: Id, items: seq<RemoteItem>, n: nat): Option<ProjectionError>
    requires n <= |items|
  {
    if n == 0 then None
    else if FirstCatalogIssue(root, items, n - 1).Some? then FirstCatalogIssue(root, items, n - 1)
    else if !Usable(items[n - 1]) || items[n - 1].remoteId == root then Some(InvalidInitialCatalogItem)
    else if exists j :: 0 <= j < n - 1 && items[j].remoteId == items[n - 1].remoteId then Some(DuplicateInitialRemoteId)
    else None
  }

  /** Why the constructor refuses an initial catalog, if it does. */
  ghost function InitialIssue(root: Id, items: seq<RemoteItem>): Option<ProjectionError> {
    if Blank(root) then Some(InvalidRootIdentifier)
    else if FirstCatalogIssue(root, items, |items|).Some? then FirstCatalogIssue(root, items, |items|)
    else if !Complete(ParentsOf(items), root) then Some(IncompleteInitialCatalog)
    else None
  }

  lemma {:induction false} CatalogIssueIff(root: Id, items: seq<RemoteItem>, n: nat)
    requires n <= |items|
    ensures FirstCatalogIssue(root, items, n).None?
            <==> (forall i :: 0 <= i < n ==> Usable(items[i]) && items[i].remoteId != root) && UniqueIds(items[..n])
  {
    if n > 0 {
      CatalogIssueIff(root, items, n - 1);
      assert items[..n] == items[..n - 1] + [items[n - 1]];
      if UniqueIds(items[..n]) {
        assert UniqueIds(items[..n - 1]) by {
          assert forall j :: 0 <= j < n - 1 ==> items[..n][j] == items[..n - 1][j];
        }
        assert forall j :: 0 <= j < n - 1 ==> items[..n][j].remoteId != items[..n][n - 1].remoteId;
      }
    }
  }

  lemma {:induction false} CatalogIssueStays(root: Id, items: seq<RemoteItem>, m: nat, n: nat)
    requires m <= n <= |items|
    ensures FirstCatalogIssue(root, items, m).Some?
            ==> FirstCatalogIssue(root, items, n) == FirstCatalogIssue(root, items, m)
    decreases n
  {
    if m < n {
      CatalogIssueStays(root, items, m, n - 1);
    }
  }

  /** Nothing is refused exactly when the catalog is an initial catalog. */
  lemma {:induction false} InitialIssueIff(root: Id, items: seq<RemoteItem>)
    ensures InitialIssue(root, items).None? <==> IsInitialCatalog(root, items)
  {
    CatalogIssueIff(root, items, |items|);
    assert items[..|items|] == items;
  }

  /** What looking at one more item tells: the first complaint is the constructor's. */
  lemma {:induction false} NextCatalogIssue(root: Id, items: seq<RemoteItem>, k: nat)
    requires k < |items| && FirstCatalogIssue(root, items, k).None?
    ensures ParentsOf(items[..k + 1]) == ParentsOf(items[..k])[items[k].remoteId := items[k].parentRemoteId]
    ensures var refused := !Usable(items[k]) || items[k].remoteId == root;
            var issue := FirstCatalogIssue(root, items, |items|);
            if refused then issue == Some(InvalidInitialCatalogItem)
            else if items[k].remoteId in ParentsOf(items[..k]) then issue == Some(DuplicateInitialRemoteId)
            else FirstCatalogIssue(root, items, k + 1).None?
  {
    CatalogIssueIff(root, items, k);
    NextId(items, k);
    CatalogIssueStays(root, items, k + 1, |items|);
  }

  class Projection {
    const rootRemoteId: Id
    var parents: Parents
    var childrenByParent: map<Id, set<Id>>

    /** The index agrees with the parent map: a child is in a bucket exactly when the map says so. */
    ghost predicate Valid()
      reads this
    {
      childrenByParent == IndexOf(parents)
    }

    constructor Empty(root: Id)
      ensures Valid() && rootRemoteId == root && parents == map[]
    {
      rootRemoteId := root;
      parents := map[];
      childrenByParent := map[];
    }

    static method New(root: Id, items: seq<RemoteItem>) returns (r: Result<Projection, ProjectionError>)
      ensures r.Ok? <==> IsInitialCatalog(root, items)
      ensures r.Ok? ==> fresh(r.value) && r.value.Valid() && r.value.rootRemoteId == root
                        && r.value.parents == ParentsOf(items)
      ensures r.Err? ==> InitialIssue(root, items) == Some(r.error)
    {
      InitialIssueIff(root, items);
      if Blank(root) {
        return Err(InvalidRootIdentifier);
      }
      var projection := new Projection.Empty(root);
      for k := 0 to |items|
        invariant fresh(projection) && projection.Valid()
        invariant projection.parents == ParentsOf(items[..k])
        invariant FirstCatalogIssue(root, items, k).None?
      {
        var item := items[k];
        NextCatalogIssue(root, items, k);
        if !Usable(item) || item.remoteId == projection.rootRemoteId {
          return Err(InvalidInitialCatalogItem);
        }
        if item.remoteId in projection.parents {
          return Err(DuplicateInitialRemoteId);
        }
        projection.ApplyUpsert(item);
      }
      assert items[..|items|] == items;
      var complete := projection.IsComplete();
      if !complete {
        return Err(IncompleteInitialCatalog);
      }
      return Ok(projection);
    }

    method ApplyUpsert(item: RemoteItem)
      requires Valid()
      modifies this
      ensures Valid() && parents == old(parents)[item.remoteId := item.parentRemoteId]
    {
      ghost var rest := parents - {item.remoteId};
      if item.remoteId in parents {
        DetachKeepsIndex(parents, item.remoteId);
        if parents[item.remoteId].Some? {
          childrenByParent := Detached(childrenByParent, parents[item.remoteId].value, item.remoteId);
        }
      } else {
        assert rest == parents;
      }
      assert childrenByParent == IndexOf(rest);
      AttachKeepsIndex(rest, item.remoteId, item.parentRemoteId);
      assert rest[item.remoteId := item.parentRemoteId] == parents[item.remoteId := item.parentRemoteId];
      parents := parents[item.remoteId := item.parentRemoteId];
      if item.parentRemoteId.Some? {
        childrenByParent := Attached(childrenByParent, item.parentRemoteId.value, item.remoteId);
      }
    }

    /** Terminates because `remoteId` is on no parent cycle; see SubtreeWalk for the cyclic case. */
    method RemoveSubtree(remoteId: Id)
      requires Valid() && !OnCycle(parents, remoteId)
      modifies this
      ensures Valid() && parents == WithoutSubtree(old(parents), remoteId)
    {
      ghost var ps := parents;
      var deleteOrder := CollectSubtree(remoteId);
      var i := |deleteOrder|;
      while i > 0
        invariant 0 <= i <= |deleteOrder|
        invariant Valid() && parents == ps - Elems(deleteOrder[i..])
      {
        i := i - 1;
        NoChildrenLeft(ps, remoteId, deleteOrder, i);
        RemoveLeaf(deleteOrder[i]);
        assert deleteOrder[i..] == [deleteOrder[i]] + deleteOrder[i + 1..];
      }
      assert deleteOrder[0..] == deleteOrder;
      WalkFinished(ps, remoteId, deleteOrder);
      assert parents == WithoutSubtree(ps, remoteId);
    }

    /** One turn of the deleting loop. The bucket of `current` is gone already. */
    method RemoveLeaf(current: Id)
      requires Valid() && Children(parents, current) == {}
      modifies this
      ensures Valid() && parents == old(parents) - {current}
    {
      IndexBuckets(parents);
      childrenByParent := childrenByParent - {current};
      assert Valid();
      if current in parents {
        DetachKeepsIndex(parents, current);
        var parent := parents[current];
        parents := parents - {current};
        if parent.Some? {
          childrenByParent := Detached(childrenByParent, parent.value, current);
        }
      }
    }

    method ListChildren(parent: Id) returns (children: seq<Id>)
      requires Valid()
      ensures Lists(children, Children(parents, parent))
    {
      IndexBuckets(parents);
      children := [];
      if parent in childrenByParent {
        children := ListElements(childrenByParent[parent]);
      }
    }

    /** The collecting loop: breadth first, with no visited set. */
    method CollectSubtree(remoteId: Id) returns (deleteOrder: seq<Id>)
      requires Valid() && !OnCycle(parents, remoteId)
      ensures Walk(parents, remoteId, deleteOrder, [])
    {
      var queue := [remoteId];
      deleteOrder := [];
      WalkStarts(parents, remoteId);
      while queue != []
        invariant Walk(parents, remoteId, deleteOrder, queue)
        decreases parents.Keys + {remoteId} - Elems(deleteOrder)
      {
        var current := queue[0];
        var children := ListChildren(current);
        WalkContinues(parents, remoteId, deleteOrder, queue, children);
        FrontIsNew(parents, remoteId, deleteOrder, queue);
        assert Elems(deleteOrder + [current]) == Elems(deleteOrder) + {current};
        queue := queue[1..] + children;
        deleteOrder := deleteOrder + [current];
      }
    }

    method IsComplete() returns (complete: bool)
      requires Valid()
      ensures complete <==> Complete(parents, rootRemoteId)
    {
      if parents == map[] {
        return true;
      }
      var queue := [rootRemoteId];
      var reached: set<Id> := {};
      ghost var found: set<Id> := {};
      while queue != []
        invariant reached == found && Searching(parents, rootRemoteId, found, queue, None)
        decreases parents.Keys - found, |queue|
      {
        var parent := queue[0];
        SearchPops(parents, rootRemoteId, found, queue);
        var children := ListChildren(parent);
        found, reached, queue :=
          InsertChildren(parents, rootRemoteId, {}, found, parent, children, reached, queue[1..]);
      }
      SearchFinished(parents, rootRemoteId, found);
      complete := |reached| == |parents|;
    }

    method ValidateComplete() returns (r: Result<(), ProjectionError>)
      requires Valid()
      ensures r == if Complete(parents, rootRemoteId) then Ok(()) else Err(IncompleteProjectedCatalog)
    {
      var complete := IsComplete();
      return if complete then Ok(()) else Err(IncompleteProjectedCatalog);
    }

    /** An error leaves the projection as it was; a success replays its own mutations. */
    method ApplyChange(change: RemoteChange, membership: Membership, hydration: Option<seq<RemoteItem>>)
      returns (r: Result<Resolution, ProjectionError>)
      requires Valid()
      requires PlanChange(change, membership, ChangeId(change) in parents) == Ok(DeleteSubtree)
               ==> !OnCycle(parents, ChangeId(change))
      modifies this
      ensures Valid()
      ensures r == old(Resolve(change, membership, hydration, ChangeId(change) in parents))
      ensures r.Ok? && r.value.Mutations? ==> parents == Replay(old(parents), r.value.mutations)
      ensures r.Err? || !r.value.Mutations? ==> parents == old(parents)
      ensures r.Ok? && hydration.Some? ==> r.value.Mutations? && EmitsItems(r.value.mutations, hydration.value)
      ensures r.Ok? && hydration.None? && r.value.Mutations? ==>
                EmitsOne(r.value.mutations, change)
    {
      var remoteId := ChangeId(change);
      var action :- PlanChange(change, membership, remoteId in parents);
      if action.HydrateSubtree? {
        if hydration.None? {
          return Err(HydrationRequired);
        }
        var verdict := ValidateHydration(change.item, hydration.value);
        if verdict.Err? {
          return Err(BadHydration(verdict.error));
        }
        var items := hydration.value;
        var mutations := [];
        for k := 0 to |items|
          invariant Valid() && mutations == Upserts(items[..k])
          invariant parents == Replay(old(parents), mutations)
        {
          ApplyUpsert(items[k]);
          assert (mutations + [UpsertMutation(items[k])])[..k] == mutations;
          mutations := mutations + [UpsertMutation(items[k])];
        }
        assert items[..|items|] == items;
        return Ok(Mutations(mutations));
      }
      if hydration.Some? {
        return Err(UnexpectedHydration);
      }
      match action {
        case Ignore =>
          return Ok(Noop);
        case RevalidateRoot =>
          return Ok(RootNeedsRevalidation);
        case UpsertItem =>
          ApplyUpsert(change.item);
          ReplaySingle(old(parents), UpsertMutation(change.item));
          return Ok(Mutations([UpsertMutation(change.item)]));
        case DeleteSubtree =>
          RemoveSubtree(remoteId);
          ReplaySingle(old(parents), DeleteSubtreeMutation(remoteId));
          return Ok(Mutations([DeleteSubtreeMutation(remoteId)]));
      }
    }
  }

  /** A prefix with distinct ids extends to the next item exactly when its id is not catalogued yet. */
  lemma {:induction false} NextId(items: seq<RemoteItem>, k: nat)
    requires k < |items| && UniqueIds(items[..k])
    ensures ParentsOf(items[..k + 1]) == ParentsOf(items[..k])[items[k].remoteId := items[k].parentRemoteId]
    ensures items[k].remoteId in ParentsOf(items[..k])
            <==> exists j :: 0 <= j < k && items[j].remoteId == items[k].remoteId
    ensures items[k].remoteId !in ParentsOf(items[..k]) ==> UniqueIds(items[..k + 1])
  {
    KeysOfParents(items[..k]);
    assert items[..k + 1][..k] == items[..k];
    forall j | 0 <= j < k
      ensures items[j].remoteId in Ids(items[..k])
    {
      assert items[..k][j] == items[j];
    }
    if items[k].remoteId in ParentsOf(items[..k]) {
      var i :| 0 <= i < k && items[..k][i].remoteId == items[k].remoteId;
      assert items[i].remoteId == items[k].remoteId;
    } else {
      assert forall i :: 0 <= i < k ==> items[..k][i].remoteId in Ids(items[..k]);
    }
  }

  lemma {:induction false} ReplaySingle(ps: Parents, m: Mutation)
    ensures Replay(ps, [m]) == ReplayOne(ps, m)
  {
    assert [m][..0] == [];
  }

  lemma {:induction false} FrontIsNew(ps: Parents, x: Id, done: seq<Id>, queue: seq<Id>)
    requires Walk(ps, x, done, queue) && queue != []
    ensures queue[0] in ps.Keys + {x} && queue[0] !in done
  {
    var all := done + queue;
    assert all[|done|] == queue[0];
    UnderCases(ps, queue[0], x);
    assert forall i :: 0 <= i < |done| ==> all[i] == done[i];
  }

  /** Deleting in reverse collection order, every child is gone before its parent. */
  lemma {:induction false} NoChildrenLeft(ps: Parents, x: Id, order: seq<Id>, i: nat)
    requires !OnCycle(ps, x) && Walk(ps, x, order, []) && i < |order|
    ensures Children(ps - Elems(order[i + 1..]), order[i]) == {}
  {
    assert order + [] == order;
    forall c | c in ps && ps[c] == Some(order[i])
      ensures c in order[i + 1..]
    {
      ChildOfSubtreeIsNotTop(ps, c, order[i], x);
      var k :| 0 <= k < |order| && order[k] == c;
      assert ParentPopped(ps, order, order, k);
      var j :| 0 <= j < k && j < |order| && ps[order[k]] == Some(order[j]);
      assert j == i;
      assert order[i + 1..][k - i - 1] == c;
    }
  }
}
