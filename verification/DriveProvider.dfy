/**
 The Drive client as the batch executor's provider: its ancestry walks and its paged hydrations answer truly
 about any forest, so a batch run through it either fails or catches up.
 */
module DriveProvider {
  import opened Wrappers
  import opened RemoteCatalog
  import opened Forest
  import opened Hydration
  import opened RootCatalogProjection
  import opened ChangeBatch
  import opened CatchUp
  import opened DriveAncestry
  import DriveHydration
  import DriveListing
  import DriveMembership
  import CatalogCommit

  /** What the client is told while one batch runs; None is a failed resolution of the root. */
  datatype Drive = Drive(fetch: Fetch, listing: DriveHydration.Listing, rootIdNow: Option<Id>)

  function MembershipReply(r: Result<RootMembership, AncestryError>): Result<Membership, BatchError> {
    match r
    case Err(_) => Err(ProviderFailed)
    case Ok(IsRoot) => Ok(Root)
    case Ok(IsDescendant) => Ok(Descendant)
    case Ok(IsOutside) => Ok(Outside)
  }

  function HydrationReply(r: Result<DriveHydration.SubtreeHydration, DriveHydration.HydrationFailure>)
    : Result<seq<RemoteItem>, BatchError>
  {
    match r
    case Err(_) => Err(ProviderFailed)
    case Ok(hydration) => Ok(hydration.items)
  }

  /** A result that resolving the membership of `item` may have. */
  ghost predicate IsResolution(drive: Drive, item: RemoteItem, root: Id, r: Result<RootMembership, AncestryError>) {
    if !ValidAncestryId(item.remoteId) || !ValidAncestryId(root) then r == Err(InvalidAncestryIdentifier)
    else if item.remoteId == root then r == Ok(IsRoot)
    else IsAnswer(drive.fetch, root, item.parentRemoteId, r)
  }

  ghost predicate IsMembershipReply(drive: Drive, item: RemoteItem, root: Id, reply: Result<Membership, BatchError>) {
    exists r :: IsResolution(drive, item, root, r) && reply == MembershipReply(r)
  }

  ghost predicate IsHydration(drive: Drive, item: RemoteItem, log: seq<DriveHydration.Request>,
                              r: Result<DriveHydration.SubtreeHydration, DriveHydration.HydrationFailure>)
  {
    if DriveHydration.ValidateHydrationRoot(item).Err? then
      r == Err(DriveHydration.ValidateHydrationRoot(item).error)
    else DriveHydration.IsHydrationRun(drive.listing, item, log, r)
  }

  ghost predicate IsHydrationReply(drive: Drive, item: RemoteItem, reply: Result<seq<RemoteItem>, BatchError>) {
    exists log, r :: IsHydration(drive, item, log, r) && reply == HydrationReply(r)
  }

  method ResolveMembership(drive: Drive, item: RemoteItem, root: Id) returns (reply: Result<Membership, BatchError>)
    ensures IsMembershipReply(drive, item, root, reply)
  {
    var r := ResolveItemMembership(drive.fetch, item, root);
    assert IsResolution(drive, item, root, r);
    return MembershipReply(r);
  }

  method HydrateFolder(drive: Drive, item: RemoteItem) returns (reply: Result<seq<RemoteItem>, BatchError>)
    ensures IsHydrationReply(drive, item, reply)
  {
    var r;
    ghost var log;
    r, log := DriveHydration.HydrateFolderSubtree(drive.listing, item);
    assert IsHydration(drive, item, log, r);
    return HydrationReply(r);
  }

  /** The provider of a batch is this client. */
  ghost predicate Serves(drive: Drive, root: Id, provider: Provider) {
    && provider.rootIdNow == (if drive.rootIdNow.None? then Err(ProviderFailed) else Ok(drive.rootIdNow.value))
    && (forall item :: IsMembershipReply(drive, item, root, provider.membership(item)))
    && (forall item :: IsHydrationReply(drive, item, provider.hydrate(item)))
  }

  /** Drive holds the forest `w`, and the selected root keeps its identity. */
  ghost predicate Shows(drive: Drive, w: World, root: Id, remaining: DriveHydration.Remaining) {
    && IsForest(w, root) && ReportsForest(drive.fetch, w, root)
    && DriveHydration.ListsForest(drive.listing, w, remaining)
    && (drive.rootIdNow.Some? ==> drive.rootIdNow.value == root)
  }

  lemma {:induction false} NoOtherRoot(fetch: Fetch, root: Id, start: Option<Id>)
    ensures !IsAnswer(fetch, root, start, Ok(IsRoot))
  {
    assert forall at: Option<Id> :: Settles(fetch, root, at) != Some(Ok(IsRoot));
  }

  ghost predicate MeetsRoot(fetch: Fetch, root: Id, start: Option<Id>) {
    exists k: nat :: Climbs(fetch, root, start, k, Some(root))
  }

  /** An item of the forest is in the selected subtree exactly when its climb meets the root. */
  lemma {:induction false} SubtreeMeetsRoot(fetch: Fetch, w: World, root: Id, x: Id)
    requires IsForest(w, root) && ReportsForest(fetch, w, root) && x in w
    ensures InSubtree(w, root, x) <==> MeetsRoot(fetch, root, w[x].parentRemoteId)
  {
    if InSubtree(w, root, x) {
      var n: nat :| n > 0 && Reaches(Links(w), x, root, n);
      ChainIsClimb(fetch, w, root, x, n - 1);
    }
    if MeetsRoot(fetch, root, w[x].parentRemoteId) {
      var k: nat :| Climbs(fetch, root, w[x].parentRemoteId, k, Some(root));
      ClimbIsChain(fetch, w, root, x, k);
      assert StrictlyUnder(Links(w), x, root);
    }
  }

  /** A settled answer says whether the climb meets the root. */
  lemma {:induction false} AnswerTellsMeeting(fetch: Fetch, root: Id, start: Option<Id>,
                                              r: Result<RootMembership, AncestryError>)
    requires ValidAncestryId(root) && IsAnswer(fetch, root, start, r) && r.Ok?
    ensures r.value == if MeetsRoot(fetch, root, start) then IsDescendant else IsOutside
  {
    NoOtherRoot(fetch, root, start);
    DescendantIff(fetch, root, start, r);
  }

  lemma {:induction false} MembershipIsTrue(drive: Drive, w: World, root: Id, item: RemoteItem,
                                            reply: Result<Membership, BatchError>)
    requires IsForest(w, root) && ReportsForest(drive.fetch, w, root) && ReportsChange(w, root, Upsert(item))
    requires IsMembershipReply(drive, item, root, reply)
    ensures MembershipAnswer(w, root, item, reply)
  {
    var r :| IsResolution(drive, item, root, r) && reply == MembershipReply(r);
    if r.Ok? && item.remoteId != root {
      AnswerTellsMeeting(drive.fetch, root, item.parentRemoteId, r);
      if !item.trashed {
        SubtreeMeetsRoot(drive.fetch, w, root, item.remoteId);
      }
    }
  }

  lemma {:induction false} HydrationIsTrue(drive: Drive, w: World, root: Id, remaining: DriveHydration.Remaining, x: Id,
                                           reply: Result<seq<RemoteItem>, BatchError>)
    requires Shows(drive, w, root, remaining) && x in w && w[x].remoteId == x
    requires IsHydrationReply(drive, w[x], reply)
    ensures HydrationAnswer(w, x, reply)
  {
    var log, r :| IsHydration(drive, w[x], log, r) && reply == HydrationReply(r);
    if r.Ok? {
      DriveHydration.RunHydratesForest(drive.listing, w, remaining, w[x], log, r.value);
    }
  }

  /** However deep the forest, whatever Drive answers about it is true; it can only fail. */
  lemma {:induction false} DriveAnswersTruly(drive: Drive, w: World, root: Id, remaining: DriveHydration.Remaining,
                                             provider: Provider)
    requires Shows(drive, w, root, remaining) && Serves(drive, root, provider)
    ensures AnswersTruly(provider, w, root)
  {
    forall item: RemoteItem | ReportsChange(w, root, Upsert(item))
      ensures MembershipAnswer(w, root, item, provider.membership(item))
    {
      MembershipIsTrue(drive, w, root, item, provider.membership(item));
    }
    forall x | InSubtree(w, root, x) && w[x].kind.Folder?
      ensures HydrationAnswer(w, x, provider.hydrate(w[x]))
    {
      HydrationIsTrue(drive, w, root, remaining, x, provider.hydrate(w[x]));
    }
  }

  /**
   The whole way: a batch that reports the forest, executed through Drive, either fails on a Drive request
   or leads from the old subtree of the selected root to exactly the new one.
   */
  lemma {:induction false} BatchThroughDrive(drive: Drive, provider: Provider, before: World, now: World, root: Id,
                                             remaining: DriveHydration.Remaining, items: seq<RemoteItem>,
                                             changes: seq<RemoteChange>, r: Result<seq<Mutation>, BatchError>)
    requires IsForest(before, root) && Shows(drive, now, root, remaining) && Serves(drive, root, provider)
    requires MentionsDifferences(before, now, changes)
    requires forall i :: 0 <= i < |changes| ==> ReportsChange(now, root, changes[i])
    requires IsInitialCatalog(root, items) && ParentsOf(items) == SubtreeOf(before, root)
    requires BatchAnswers(provider, root, items, changes, r)
    ensures r == Err(ProviderFailed) || (r.Ok? && Replay(ParentsOf(items), r.value) == SubtreeOf(now, root))
  {
    DriveAnswersTruly(drive, now, root, remaining, provider);
    ExecutedBatchCatchesUp(provider, before, now, root, items, changes, r);
  }

  /** An item of the selected subtree is recognised exactly when it is at most 129 steps below the root. */
  lemma {:induction false} DepthIsLimited(drive: Drive, w: World, root: Id, remaining: DriveHydration.Remaining,
                                          provider: Provider, x: Id)
    requires Shows(drive, w, root, remaining) && Serves(drive, root, provider) && InSubtree(w, root, x)
    requires ValidAncestryId(root) && ValidAncestryId(x) && !w[x].trashed
    ensures provider.membership(w[x]) == (if WithinDepth(Links(w), x, root, 129)
                                          then Ok(Descendant) else Err(ProviderFailed))
  {
    var reply := provider.membership(w[x]);
    var r :| IsResolution(drive, w[x], root, r) && reply == MembershipReply(r);
    MembershipMatchesForest(drive.fetch, w, root, x, r);
    MembershipIsTrue(drive, w, root, w[x], reply);
  }

  /** The same for whole rows: what a commit of the mutations leaves are the rows of the new subtree. */
  lemma {:induction false} BatchThroughDriveStores(drive: Drive, provider: Provider, before: World, now: World,
                                                   root: Id, remaining: DriveHydration.Remaining,
                                                   items: seq<RemoteItem>, changes: seq<RemoteChange>,
                                                   r: Result<seq<Mutation>, BatchError>)
    requires IsForest(before, root) && Shows(drive, now, root, remaining) && Serves(drive, root, provider)
    requires CatalogCommit.MentionsRowDifferences(before, now, changes)
    requires forall i :: 0 <= i < |changes| ==> ReportsChange(now, root, changes[i])
    requires IsInitialCatalog(root, items) && ParentsOf(items) == SubtreeOf(before, root)
    requires BatchAnswers(provider, root, items, changes, r)
    ensures r == Err(ProviderFailed)
            || (r.Ok? && CatalogCommit.Store(CatalogCommit.RowsOf(before, root), r.value)
                         == CatalogCommit.RowsOf(now, root))
  {
    DriveAnswersTruly(drive, now, root, remaining, provider);
    CatalogCommit.RowsShowDifferences(before, now, changes);
    ExecutedBatchCatchesUp(provider, before, now, root, items, changes, r);
    CatalogCommit.BatchStoresRows(provider, before, now, root, changes);
    InitialIssueIff(root, items);
  }

  /** A folder of a forest that Drive lists page by page is hydrated if and only if it is within the limits. */
  lemma {:induction false} HydratesIffWithinLimits(drive: Drive, provider: Provider, w: World, root: Id, x: Id,
                                                   book: DriveListing.Book)
    requires Serves(drive, root, provider) && DriveListing.IsWalkable(w, x)
    requires DriveListing.Serves(drive.listing, w, x, book) && DriveListing.ListsAll(w, x, book)
    ensures provider.hydrate(w[x]).Ok? <==> DriveListing.IsWithinLimits(w, x, book)
  {
    var reply := provider.hydrate(w[x]);
    var log, r :| IsHydration(drive, w[x], log, r) && reply == HydrationReply(r);
    assert w[x].remoteId == x && Usable(w[x]);
    DriveListing.WalkSucceedsIff(drive.listing, w, w[x], book, log, r);
  }

  /**
   An item of a forest outside the selected subtree is answered outside when its chain leaves the forest within
   128 places, and fails on the hop limit otherwise.
   */
  lemma {:induction false} OutsideIsLimited(drive: Drive, w: World, root: Id, provider: Provider, x: Id, k: nat)
    requires IsForest(w, root) && ReportsForest(drive.fetch, w, root) && Serves(drive, root, provider)
    requires DriveMembership.ShowsOutside(drive.fetch, w, root) && DriveMembership.Leaves(w, root, x, k)
    requires ValidAncestryId(root) && ValidAncestryId(x)
    ensures provider.membership(w[x]) == if k < 128 then Ok(Outside) else Err(ProviderFailed)
  {
    var reply := provider.membership(w[x]);
    var r :| IsResolution(drive, w[x], root, r) && reply == MembershipReply(r);
    DriveMembership.OutsideOfForest(drive.fetch, w, root, x, k, r);
  }
}
