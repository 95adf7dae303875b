/** One provider change batch run against the catalog projection of a selected root. */
module ChangeBatch {
  import opened Wrappers
  import opened RemoteCatalog
  import opened Forest
  import opened Hydration
  import opened RootCatalogProjection

  datatype BatchError =
    | ProviderFailed
    | RootIdentityChanged
    | Rejected(cause: ProjectionError)

  /** The answers a provider gives while one batch runs; `rootIdNow` is the canonical id on revalidation. */
  datatype Provider = Provider(
    membership: RemoteItem -> Result<Membership, BatchError>,
    hydrate: RemoteItem -> Result<seq<RemoteItem>, BatchError>,
    rootIdNow: Result<Id, BatchError>)

  function MembershipOf(provider: Provider, root: Id, change: RemoteChange): Result<Membership, BatchError> {
    match change
    case Delete(remoteId) => Ok(if remoteId == root then Root else UnresolvedDelete)
    case Upsert(item) => provider.membership(item)
  }

  function HydrationFor(provider: Provider, change: RemoteChange, membership: Membership, cataloged: bool)
    : Result<Option<seq<RemoteItem>>, BatchError>
  {
    if change.Upsert? && membership.Descendant? && change.item.kind.Folder? && !change.item.trashed && !cataloged then
      var items :- provider.hydrate(change.item);
      Ok(Some(items))
    else
      Ok(None)
  }

  /** The mutations one change contributes when the catalog is `ps`. */
  ghost function Respond(provider: Provider, root: Id, ps: Parents, change: RemoteChange)
    : Result<seq<Mutation>, BatchError>
  {
    var cataloged := ChangeId(change) in ps;
    var membership :- MembershipOf(provider, root, change);
    var hydration :- HydrationFor(provider, change, membership, cataloged);
    match Resolve(change, membership, hydration, cataloged)
    case Err(e) => Err(Rejected(e))
    case Ok(Noop) => Ok([])
    case Ok(Mutations(ms)) => Ok(ms)
    case Ok(RootNeedsRevalidation) =>
      if provider.rootIdNow.Err? then Err(provider.rootIdNow.error)
      else if provider.rootIdNow.value != root then Err(RootIdentityChanged)
      else Ok([])
  }

  /** The mutations of a whole batch, in order, starting from the catalog `ps`. */
  ghost function BatchMutations(provider: Provider, root: Id, ps: Parents, changes: seq<RemoteChange>)
    : Result<seq<Mutation>, BatchError>
  {
    if changes == [] then Ok([])
    else
      var before :- BatchMutations(provider, root, ps, changes[..|changes| - 1]);
      var now :- Respond(provider, root, Replay(ps, before), changes[|changes| - 1]);
      Ok(before + now)
  }

  /** The change is to the selected root itself. */
  predicate ChangesRoot(provider: Provider, root: Id, change: RemoteChange) {
    if change.Delete? then change.remoteId == root else provider.membership(change.item) == Ok(Root)
  }

  /** A change to the root is answered by looking whether the canonical id is still the same. */
  lemma {:induction false} RootIsRevalidated(provider: Provider, root: Id, ps: Parents, change: RemoteChange)
    requires ChangesRoot(provider, root, change)
    ensures Respond(provider, root, ps, change)
            == if provider.rootIdNow.Err? then Err(provider.rootIdNow.error)
               else if provider.rootIdNow == Ok(root) then Ok([]) else Err(RootIdentityChanged)
  {
  }

  /**
   A batch with a change to the root succeeds only while the root keeps its identity, and reports that it changed
   when no change before that one fails.
   */
  lemma {:induction false} RootChangeIsChecked(provider: Provider, root: Id, ps: Parents, changes: seq<RemoteChange>,
                                               k: nat)
    requires k < |changes| && ChangesRoot(provider, root, changes[k])
    ensures BatchMutations(provider, root, ps, changes).Ok? ==> provider.rootIdNow == Ok(root)
    ensures BatchMutations(provider, root, ps, changes[..k]).Ok? && provider.rootIdNow.Ok?
            && provider.rootIdNow.value != root
            ==> BatchMutations(provider, root, ps, changes) == Err(RootIdentityChanged)
  {
    var before := BatchMutations(provider, root, ps, changes[..k]);
    assert changes[..k + 1][..k] == changes[..k];
    if before.Err? {
      BatchErrorStays(provider, root, ps, changes, k);
    } else {
      RootIsRevalidated(provider, root, Replay(ps, before.value), changes[k]);
      if BatchMutations(provider, root, ps, changes[..k + 1]).Err? {
        BatchErrorStays(provider, root, ps, changes, k + 1);
      }
    }
  }

  /** Applying `change` to the catalog `ps` deletes a subtree. */
  predicate Deletes(provider: Provider, root: Id, ps: Parents, change: RemoteChange) {
    var membership := MembershipOf(provider, root, change);
    membership.Ok? && PlanChange(change, membership.value, ChangeId(change) in ps) == Ok(DeleteSubtree)
  }

  /** No delete target is on a parent cycle at its turn. */
  ghost predicate DeletesOffCycle(provider: Provider, root: Id, ps: Parents, changes: seq<RemoteChange>) {
    forall k :: 0 <= k < |changes| ==> DeleteOffCycleAt(provider, root, ps, changes, k)
  }

  ghost predicate DeleteOffCycleAt(provider: Provider, root: Id, ps: Parents, changes: seq<RemoteChange>, k: nat)
    requires k < |changes|
  {
    var before := BatchMutations(provider, root, ps, changes[..k]);
    before.Ok? && Deletes(provider, root, Replay(ps, before.value), changes[k])
    ==> !OnCycle(Replay(ps, before.value), ChangeId(changes[k]))
  }

  /** A batch that fails at some change fails with the same error whatever follows. */
  lemma {:induction false} BatchErrorStays(provider: Provider, root: Id, ps: Parents, changes: seq<RemoteChange>,
                                           k: nat)
    requires k <= |changes| && BatchMutations(provider, root, ps, changes[..k]).Err?
    ensures BatchMutations(provider, root, ps, changes) == BatchMutations(provider, root, ps, changes[..k])
    decreases |changes|
  {
    if k == |changes| {
      assert changes[..k] == changes;
    } else {
      var init := changes[..|changes| - 1];
      assert init[..k] == changes[..k];
      BatchErrorStays(provider, root, ps, init, k);
    }
  }

  /**
   What a batch answers: the mutations of every change, provided the durable catalog was usable
   and the projected catalog ends complete.
   */
  ghost predicate BatchAnswers(provider: Provider, root: Id, items: seq<RemoteItem>, changes: seq<RemoteChange>,
                               r: Result<seq<Mutation>, BatchError>)
  {
    var ms := BatchMutations(provider, root, ParentsOf(items), changes);
    if InitialIssue(root, items).Some? then r == Err(Rejected(InitialIssue(root, items).value))
    else if ms.Err? then r == ms
    else if !Complete(Replay(ParentsOf(items), ms.value), root) then r == Err(Rejected(IncompleteProjectedCatalog))
    else r == ms
  }

  method ExecuteChangeBatch(provider: Provider, root: Id, durableItems: seq<RemoteItem>, changes: seq<RemoteChange>)
    returns (r: Result<seq<Mutation>, BatchError>)
    requires DeletesOffCycle(provider, root, ParentsOf(durableItems), changes)
    ensures BatchAnswers(provider, root, durableItems, changes, r)
  {
    InitialIssueIff(root, durableItems);
    var initial := Projection.New(root, durableItems);
    if initial.Err? {
      return Err(Rejected(initial.error));
    }
    var projection := initial.value;
    ghost var ps := ParentsOf(durableItems);
    var mutations: seq<Mutation> := [];
    for k := 0 to |changes|
      invariant fresh(projection) && projection.Valid() && projection.rootRemoteId == root
      invariant BatchMutations(provider, root, ps, changes[..k]) == Ok(mutations)
      invariant projection.parents == Replay(ps, mutations)
    {
      var change := changes[k];
      assert changes[..k + 1][..k] == changes[..k];
      assert DeleteOffCycleAt(provider, root, ps, changes, k);
      var planned := RespondTo(provider, projection, change);
      if planned.Err? {
        BatchErrorStays(provider, root, ps, changes, k + 1);
        return planned;
      }
      ReplayConcat(ps, mutations, planned.value);
      mutations := mutations + planned.value;
    }
    assert changes[..|changes|] == changes;
    var complete := projection.ValidateComplete();
    if complete.Err? {
      return Err(Rejected(complete.error));
    }
    return Ok(mutations);
  }

  /** The loop body: membership, hydration when needed, then the projection. */
  method RespondTo(provider: Provider, projection: Projection, change: RemoteChange)
    returns (r: Result<seq<Mutation>, BatchError>)
    requires projection.Valid()
    requires Deletes(provider, projection.rootRemoteId, projection.parents, change)
             ==> !OnCycle(projection.parents, ChangeId(change))
    modifies projection
    ensures projection.Valid()
    ensures r == Respond(provider, projection.rootRemoteId, old(projection.parents), change)
    ensures r.Ok? ==> projection.parents == Replay(old(projection.parents), r.value)
  {
    var root := projection.rootRemoteId;
    var membership :- MembershipOf(provider, root, change);
    var hydration :- HydrationFor(provider, change, membership, ChangeId(change) in projection.parents);
    var resolution := projection.ApplyChange(change, membership, hydration);
    if resolution.Err? {
      return Err(Rejected(resolution.error));
    }
    match resolution.value {
      case Noop =>
        return Ok([]);
      case Mutations(planned) =>
        return Ok(planned);
      case RootNeedsRevalidation =>
        var now :- provider.rootIdNow;
        if now != root {
          return Err(RootIdentityChanged);
        }
        return Ok([]);
    }
  }
}
