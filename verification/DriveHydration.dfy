/** Subtree hydration: a paged breadth-first walk of one folder, against any paged provider. */
module DriveHydration {
  import opened Wrappers
  import opened RemoteCatalog
  import opened Forest
  import opened SubtreeWalk
  import opened Hydration
  import CatchUp
  import DriveAncestry

  const MAX_PAGES := 100_000
  const MAX_ITEMS := 1_000_000
  const U64_MAX := 0xFFFF_FFFF_FFFF_FFFF

  datatype HydrationFailure =
    | RequestFailed
    | InvalidAncestryIdentifier
    | HydrationRootNotFolder
    | HydrationRootTrashed
    | HydrationInvalidItem
    | HydrationParentMismatch
    | HydrationDuplicateRemoteId
    | HydrationSafetyLimitExceeded
    | HydrationPaginationLoop

  datatype Page = Page(items: seq<RemoteItem>, continuation: Option<string>, unsupportedProviderNative: nat)

  /** Any provider: the answer may depend on how many requests came before. */
  type Listing = (nat, Id, Option<string>) -> Result<Page, HydrationFailure>

  /** One answered request for a page of a folder's children. */
  datatype Request = Request(parent: Id, token: Option<string>, page: Page)

  datatype SubtreeHydration = SubtreeHydration(items: seq<RemoteItem>, unsupportedProviderNative: nat, pageCount: nat)

  function ValidateHydrationRoot(item: RemoteItem): Result<(), HydrationFailure> {
    if !DriveAncestry.ValidAncestryId(item.remoteId) then Err(InvalidAncestryIdentifier)
    else if !item.kind.Folder? then Err(HydrationRootNotFolder)
    else if item.trashed then Err(HydrationRootTrashed)
    else if item.name == "" then Err(HydrationInvalidItem)
    else Ok(())
  }

  /** The check of one listed child; success also marks its id as seen. */
  function ValidateHydrationChild(parent: Id, item: RemoteItem, seen: set<Id>): Result<set<Id>, HydrationFailure> {
    if !DriveAncestry.ValidAncestryId(parent) || !DriveAncestry.ValidAncestryId(item.remoteId) then
      Err(InvalidAncestryIdentifier)
    else if item.name == "" || item.trashed then Err(HydrationInvalidItem)
    else if item.parentRemoteId != Some(parent) then Err(HydrationParentMismatch)
    else if item.remoteId in seen then Err(HydrationDuplicateRemoteId)
    else Ok(seen + {item.remoteId})
  }

  /** Which complaint a listed child meets first, told from its fields alone. */
  lemma {:induction false} ChildComplaints(parent: Id, item: RemoteItem, seen: set<Id>)
    ensures var r := ValidateHydrationChild(parent, item, seen);
            var named := DriveAncestry.ValidAncestryId(parent) && DriveAncestry.ValidAncestryId(item.remoteId);
            var live := item.name != "" && !item.trashed;
            && (r == Err(InvalidAncestryIdentifier) <==> !named)
            && (r == Err(HydrationInvalidItem) <==> named && !live)
            && (r == Err(HydrationParentMismatch) <==> named && live && item.parentRemoteId != Some(parent))
            && (r == Err(HydrationDuplicateRemoteId)
                <==> named && live && item.parentRemoteId == Some(parent) && item.remoteId in seen)
            && (r.Ok? ==> r.value == seen + {item.remoteId})
  {
  }

  /** Which complaint the folder itself meets first. */
  lemma {:induction false} RootComplaints(item: RemoteItem)
    ensures var r := ValidateHydrationRoot(item);
            var named := DriveAncestry.ValidAncestryId(item.remoteId);
            && (r == Err(InvalidAncestryIdentifier) <==> !named)
            && (r == Err(HydrationRootNotFolder) <==> named && item.kind.File?)
            && (r == Err(HydrationRootTrashed) <==> named && item.kind.Folder? && item.trashed)
            && (r == Err(HydrationInvalidItem) <==> named && item.kind.Folder? && !item.trashed && item.name == "")
            && (r == Ok(()) <==> named && item.kind.Folder? && !item.trashed && item.name != "")
  {
  }

  lemma {:induction false} ValidIdIsNotBlank(id: Id)
    requires DriveAncestry.ValidAncestryId(id)
    ensures !Blank(id)
  {
    assert DriveAncestry.IsIdCharacter(id[0]);
    assert !IsWhiteSpace(id[0]);
  }

  /** The ids of the folders among `items`, in order. */
  function FolderIds(items: seq<RemoteItem>): seq<Id> {
    if items == [] then []
    else
      var n := |items| - 1;
      FolderIds(items[..n]) + if items[n].kind.Folder? then [items[n].remoteId] else []
  }

  lemma {:induction false} FolderIdsPush(items: seq<RemoteItem>, item: RemoteItem)
    ensures FolderIds(items + [item]) == FolderIds(items) + if item.kind.Folder? then [item.remoteId] else []
  {
    assert (items + [item])[..|items|] == items;
  }

  lemma {:induction false} FolderIdsConcat(a: seq<RemoteItem>, b: seq<RemoteItem>)
    ensures FolderIds(a + b) == FolderIds(a) + FolderIds(b)
    decreases |b|
  {
    if b == [] {
      assert a + b == a;
    } else {
      var n := |b| - 1;
      FolderIdsConcat(a, b[..n]);
      FolderIdsPush(a + b[..n], b[n]);
      assert a + b == a + b[..n] + [b[n]];
    }
  }

  lemma {:induction false} FolderIdsMember(items: seq<RemoteItem>, p: Id)
    ensures p in FolderIds(items) <==> exists j :: 0 <= j < |items| && items[j].kind.Folder? && items[j].remoteId == p
    decreases |items|
  {
    if items != [] {
      var n := |items| - 1;
      FolderIdsMember(items[..n], p);
      if j :| 0 <= j < |items| && items[j].kind.Folder? && items[j].remoteId == p {
        if j < n {
          assert items[..n][j] == items[j];
        }
      }
      if p in FolderIds(items[..n]) {
        var j :| 0 <= j < |items[..n]| && items[..n][j].kind.Folder? && items[..n][j].remoteId == p;
        assert items[j].kind.Folder?;
      }
    }
  }

  /** The items collected once `log` has been answered. */
  function ItemsOf(root: RemoteItem, log: seq<Request>): seq<RemoteItem> {
    if log == [] then [root] else ItemsOf(root, log[..|log| - 1]) + log[|log| - 1].page.items
  }

  function UnsupportedOf(log: seq<Request>): nat {
    if log == [] then 0 else UnsupportedOf(log[..|log| - 1]) + log[|log| - 1].page.unsupportedProviderNative
  }

  /** The folders whose first page has been asked for, in order. */
  function OpenedIds(log: seq<Request>): seq<Id> {
    if log == [] then []
    else
      var last := log[|log| - 1];
      OpenedIds(log[..|log| - 1]) + if last.token.None? then [last.parent] else []
  }

  /** The page tokens received for the folder being listed. */
  function TokensOf(log: seq<Request>): set<string> {
    if log == [] then {}
    else
      var last := log[|log| - 1];
      (if last.token.None? then {} else TokensOf(log[..|log| - 1]))
      + if last.page.continuation.Some? then {last.page.continuation.value} else {}
  }

  /** What must be asked after `log`: the rest of the last folder, or the next listed folder. */
  function NextRequest(root: RemoteItem, log: seq<Request>): Option<(Id, Option<string>)> {
    if log != [] && log[|log| - 1].page.continuation.Some? then
      Some((log[|log| - 1].parent, log[|log| - 1].page.continuation))
    else
      var folders := FolderIds(ItemsOf(root, log));
      if |OpenedIds(log)| < |folders| then Some((folders[|OpenedIds(log)|], None)) else None
  }

  /** The first complaint about the first `n` children of a page, given the items before it. */
  ghost function ChildrenFailure(parent: Id, items: seq<RemoteItem>, children: seq<RemoteItem>, n: nat)
    : Option<HydrationFailure>
    requires n <= |children|
  {
    if n == 0 then None
    else if ChildrenFailure(parent, items, children, n - 1).Some? then ChildrenFailure(parent, items, children, n - 1)
    else
      var checked := ValidateHydrationChild(parent, children[n - 1], Ids(items + children[..n - 1]));
      if checked.Err? then Some(checked.error)
      else if |items| + n > MAX_ITEMS then Some(HydrationSafetyLimitExceeded)
      else None
  }

  /** Why the page is refused after `log`; None when it is taken in. */
  ghost function PageFailure(root: RemoteItem, log: seq<Request>, parent: Id, token: Option<string>, page: Page)
    : Option<HydrationFailure>
  {
    var children := ChildrenFailure(parent, ItemsOf(root, log), page.items, |page.items|);
    if UnsupportedOf(log) + page.unsupportedProviderNative > U64_MAX then Some(HydrationSafetyLimitExceeded)
    else if children.Some? then children
    else if page.continuation.Some? && token.Some? && page.continuation.value in TokensOf(log) then
      Some(HydrationPaginationLoop)
    else None
  }

  ghost predicate IsNextAnswer(listing: Listing, root: RemoteItem, log: seq<Request>, request: Request) {
    && NextRequest(root, log) == Some((request.parent, request.token))
    && listing(|log|, request.parent, request.token) == Ok(request.page)
    && PageFailure(root, log, request.parent, request.token, request.page).None?
  }

  /** Every request in `log` was the one called for at its turn, was answered and was taken in. */
  ghost predicate IsLog(listing: Listing, root: RemoteItem, log: seq<Request>) {
    |log| <= MAX_PAGES
    && forall i :: 0 <= i < |log| ==> IsNextAnswer(listing, root, log[..i], log[i])
  }

  lemma {:induction false} LogGrows(listing: Listing, root: RemoteItem, log: seq<Request>, request: Request)
    requires IsLog(listing, root, log) && |log| < MAX_PAGES && IsNextAnswer(listing, root, log, request)
    ensures IsLog(listing, root, log + [request])
  {
    var grown := log + [request];
    forall i | 0 <= i < |grown|
      ensures IsNextAnswer(listing, root, grown[..i], grown[i])
    {
      assert grown[..i] == if i < |log| then log[..i] else log;
    }
  }

  lemma {:induction false} LogPrefix(listing: Listing, root: RemoteItem, log: seq<Request>)
    requires IsLog(listing, root, log) && log != []
    ensures IsLog(listing, root, log[..|log| - 1])
    ensures IsNextAnswer(listing, root, log[..|log| - 1], log[|log| - 1])
  {
    var n := |log| - 1;
    forall i | 0 <= i < n
      ensures IsNextAnswer(listing, root, log[..n][..i], log[..n][i])
    {
      assert log[..n][..i] == log[..i];
    }
  }

  /** What holds at the start and is kept by every answered request holds after every log. */
  lemma {:induction false} LogInduction(listing: Listing, root: RemoteItem, log: seq<Request>,
                                        holds: seq<Request> -> bool)
    requires IsLog(listing, root, log) && holds([])
    requires forall before, request :: holds(before) && IsNextAnswer(listing, root, before, request) ==>
               holds(before + [request])
    ensures holds(log)
    decreases |log|
  {
    if log != [] {
      LogPrefix(listing, root, log);
      LogInduction(listing, root, log[..|log| - 1], holds);
      assert log == log[..|log| - 1] + [log[|log| - 1]];
    }
  }

  /** After `log` nothing is left to ask, or the next request breaks the run off with `failure`. */
  ghost predicate EndsWith(listing: Listing, root: RemoteItem, log: seq<Request>,
                           r: Result<SubtreeHydration, HydrationFailure>)
  {
    match r
    case Ok(hydration) =>
      NextRequest(root, log).None? && hydration == SubtreeHydration(ItemsOf(root, log), UnsupportedOf(log), |log|)
    case Err(failure) =>
      NextRequest(root, log).Some? && BreaksOff(listing, root, log, NextRequest(root, log).value, failure)
  }

  ghost predicate BreaksOff(listing: Listing, root: RemoteItem, log: seq<Request>, next: (Id, Option<string>),
                            failure: HydrationFailure)
  {
    if |log| == MAX_PAGES then failure == HydrationSafetyLimitExceeded
    else
      match listing(|log|, next.0, next.1)
      case Err(e) => failure == e
      case Ok(page) => PageFailure(root, log, next.0, next.1, page) == Some(failure)
  }

  /**
   The loop over one page: every child is checked against the ids seen so far, folders join the
   queue, and the first complaint ends the run.
   */
  method TakeChildren(parent: Id, children: seq<RemoteItem>, items0: seq<RemoteItem>, folders0: seq<Id>, seen0: set<Id>)
    returns (failure: Option<HydrationFailure>, items: seq<RemoteItem>, folders: seq<Id>, seen: set<Id>)
    requires seen0 == Ids(items0)
    ensures failure == ChildrenFailure(parent, items0, children, |children|)
    ensures failure.None? ==>
              items == items0 + children && folders == folders0 + FolderIds(children) && seen == Ids(items)
  {
    failure, items, folders, seen := None, items0, folders0, seen0;
    for k := 0 to |children|
      invariant ChildrenFailure(parent, items0, children, k).None?
      invariant items == items0 + children[..k] && seen == Ids(items)
      invariant folders == folders0 + FolderIds(children[..k])
    {
      var item := children[k];
      FailureStays(parent, items0, children, k + 1, |children|);
      FolderIdsPush(children[..k], item);
      assert children[..k + 1] == children[..k] + [item];
      var checked := ValidateHydrationChild(parent, item, seen);
      if checked.Err? {
        return Some(checked.error), items, folders, seen;
      }
      seen := checked.value;
      if item.kind.Folder? {
        folders := folders + [item.remoteId];
      }
      IdsGrow(items, item);
      items := items + [item];
      if |items| > MAX_ITEMS {
        return Some(HydrationSafetyLimitExceeded), items, folders, seen;
      }
      assert items == items0 + children[..k + 1];
    }
    assert children[..|children|] == children;
  }

  lemma {:induction false} IdsGrow(items: seq<RemoteItem>, item: RemoteItem)
    ensures Ids(items + [item]) == Ids(items) + {item.remoteId}
  {
    var grown := items + [item];
    assert forall i :: 0 <= i < |items| ==> grown[i] == items[i];
    assert grown[|items|] == item;
  }

  lemma {:induction false} FailureStays(parent: Id, items: seq<RemoteItem>, children: seq<RemoteItem>, m: nat, n: nat)
    requires m <= n <= |children|
    ensures ChildrenFailure(parent, items, children, m).Some?
            ==> ChildrenFailure(parent, items, children, n) == ChildrenFailure(parent, items, children, m)
    decreases n
  {
    if m < n {
      FailureStays(parent, items, children, m, n - 1);
    }
  }

  /** The local variables between two requests, as functions of what was answered so far. */
  ghost predicate Holds(listing: Listing, root: RemoteItem, log: seq<Request>,
                        items: seq<RemoteItem>, seen: set<Id>, unsupported: nat, pageCount: nat)
  {
    && IsLog(listing, root, log) && items == ItemsOf(root, log) && seen == Ids(items)
    && unsupported == UnsupportedOf(log) && pageCount == |log|
  }

  /** Between two requests: `parent` is being listed from `continuation`, and `folders` waits. */
  ghost predicate Asking(root: RemoteItem, log: seq<Request>, folders: seq<Id>, parent: Id,
                         continuation: Option<string>, tokens: set<string>)
  {
    && NextRequest(root, log) == Some((parent, continuation))
    && FolderIds(ItemsOf(root, log)) == OpenedIds(log) + (if continuation.None? then [parent] else []) + folders
    && tokens == if continuation.None? then {} else TokensOf(log)
  }

  /** Between two folders. */
  ghost predicate Between(root: RemoteItem, log: seq<Request>, folders: seq<Id>) {
    && (log != [] ==> log[|log| - 1].page.continuation.None?)
    && FolderIds(ItemsOf(root, log)) == OpenedIds(log) + folders
  }

  lemma {:induction false} OpensFolder(root: RemoteItem, log: seq<Request>, folders: seq<Id>)
    requires Between(root, log, folders)
    ensures folders == [] ==> NextRequest(root, log).None?
    ensures folders != [] ==> Asking(root, log, folders[1..], folders[0], None, {})
  {
    var ids := FolderIds(ItemsOf(root, log));
    if folders != [] {
      assert ids[|OpenedIds(log)|] == folders[0];
      assert OpenedIds(log) + [folders[0]] + folders[1..] == ids;
    }
  }

  lemma {:induction false} LogPush(root: RemoteItem, log: seq<Request>, request: Request)
    ensures ItemsOf(root, log + [request]) == ItemsOf(root, log) + request.page.items
    ensures UnsupportedOf(log + [request]) == UnsupportedOf(log) + request.page.unsupportedProviderNative
    ensures OpenedIds(log + [request]) == OpenedIds(log) + if request.token.None? then [request.parent] else []
    ensures TokensOf(log + [request]) == (if request.token.None? then {} else TokensOf(log))
                                         + if request.page.continuation.Some? then {request.page.continuation.value}
                                           else {}
  {
    assert (log + [request])[..|log|] == log;
  }

  /** Taking a page in: what `TakeChildren` left is what the longer log calls for. */
  lemma {:induction false} PageTaken(root: RemoteItem, log: seq<Request>, folders: seq<Id>, tokens: set<string>,
                                     request: Request)
    requires Asking(root, log, folders, request.parent, request.token, tokens)
    ensures request.page.continuation.None? ==> Between(root, log + [request], folders + FolderIds(request.page.items))
    ensures request.page.continuation.Some?
            ==> Asking(root, log + [request], folders + FolderIds(request.page.items), request.parent,
                       request.page.continuation,
                       tokens + {request.page.continuation.value})
  {
    var grown, queue := log + [request], folders + FolderIds(request.page.items);
    LogPush(root, log, request);
    FolderIdsConcat(ItemsOf(root, log), request.page.items);
    assert FolderIds(ItemsOf(root, grown)) == OpenedIds(grown) + queue;
    if request.page.continuation.Some? {
      assert OpenedIds(grown) + [] + queue == OpenedIds(grown) + queue;
    }
  }

  /** What a run leaves: the requests it made, all taken in, and the result they lead to. */
  ghost predicate IsHydrationRun(listing: Listing, root: RemoteItem, log: seq<Request>,
                                 r: Result<SubtreeHydration, HydrationFailure>)
  {
    IsLog(listing, root, log) && EndsWith(listing, root, log, r)
  }

  /** One turn of the page loop. */
  method TakePage(listing: Listing, root: RemoteItem, ghost log: seq<Request>, parent: Id, continuation: Option<string>,
                  tokens: set<string>,
                  items0: seq<RemoteItem>, folders0: seq<Id>, seen0: set<Id>, unsupported0: nat, pageCount0: nat)
    returns (failure: Option<HydrationFailure>, next: Option<string>,
             items: seq<RemoteItem>, folders: seq<Id>, seen: set<Id>, unsupported: nat, pageCount: nat,
             ghost grown: seq<Request>)
    requires Holds(listing, root, log, items0, seen0, unsupported0, pageCount0)
    requires Asking(root, log, folders0, parent, continuation, tokens)
    ensures failure.Some? ==> IsHydrationRun(listing, root, log, Err(failure.value))
    ensures failure.None? ==> |log| < |grown| && Holds(listing, root, grown, items, seen, unsupported, pageCount)
    ensures failure.None? && next.None? ==> Between(root, grown, folders)
    ensures failure.None? && next.Some? ==> Asking(root, grown, folders, parent, next, tokens + {next.value})
  {
    failure, next, items, folders, seen, unsupported, grown := None, None, items0, folders0, seen0, unsupported0, log;
    pageCount := pageCount0 + 1;
    if pageCount > MAX_PAGES {
      failure := Some(HydrationSafetyLimitExceeded);
      return;
    }
    var answer := listing(pageCount - 1, parent, continuation);
    if answer.Err? {
      failure := Some(answer.error);
      return;
    }
    var page := answer.value;
    if unsupported + page.unsupportedProviderNative > U64_MAX {
      failure := Some(HydrationSafetyLimitExceeded);
      return;
    }
    unsupported := unsupported + page.unsupportedProviderNative;
    failure, items, folders, seen := TakeChildren(parent, page.items, items, folders, seen);
    if failure.Some? {
      return;
    }
    next := page.continuation;
    if next.Some? && next.value in tokens {
      failure := Some(HydrationPaginationLoop);
      return;
    }
    ghost var request := Request(parent, continuation, page);
    LogGrows(listing, root, log, request);
    LogPush(root, log, request);
    PageTaken(root, log, folders0, tokens, request);
    grown := log + [request];
  }

  /** The queue loop over folders, with the page loop inside it. */
  method HydrateFolderSubtree(listing: Listing, root: RemoteItem)
    returns (r: Result<SubtreeHydration, HydrationFailure>, ghost log: seq<Request>)
    ensures ValidateHydrationRoot(root).Err? ==> r == Err(ValidateHydrationRoot(root).error)
    ensures ValidateHydrationRoot(root).Ok? ==> IsHydrationRun(listing, root, log, r)
  {
    log := [];
    var validated := ValidateHydrationRoot(root);
    if validated.Err? {
      return Err(validated.error), log;
    }
    var items, folders, seen := [root], [root.remoteId], {root.remoteId};
    var unsupportedProviderNative: nat, pageCount: nat := 0, 0;
    FolderIdsConcat([], [root]);
    while folders != []
      invariant Holds(listing, root, log, items, seen, unsupportedProviderNative, pageCount)
      invariant Between(root, log, folders)
      decreases MAX_PAGES - |log|
    {
      OpensFolder(root, log, folders);
      var parent := folders[0];
      folders := folders[1..];
      var continuation: Option<string> := None;
      var tokens: set<string> := {};
      ghost var before := |log|;
      while true
        invariant Holds(listing, root, log, items, seen, unsupportedProviderNative, pageCount)
        invariant Asking(root, log, folders, parent, continuation, tokens)
        invariant before <= |log|
        decreases MAX_PAGES - |log|
      {
        var failure, next;
        ghost var grown;
        failure, next, items, folders, seen, unsupportedProviderNative, pageCount, grown :=
          TakePage(listing, root, log, parent, continuation, tokens, items, folders, seen, unsupportedProviderNative,
                   pageCount);
        if failure.Some? {
          return Err(failure.value), log;
        }
        log := grown;
        if next.None? {
          break;
        }
        tokens := tokens + {next.value};
        continuation := next;
      }
    }
    OpensFolder(root, log, folders);
    r := Ok(SubtreeHydration(items, unsupportedProviderNative, pageCount));
  }

  /** The walk so far: usable distinct items, each later one a child of an earlier folder. */
  ghost predicate Walked(root: RemoteItem, items: seq<RemoteItem>, seen: set<Id>) {
    && items != [] && items[0] == root && seen == Ids(items) && UniqueIds(items)
    && (forall i :: 0 <= i < |items| ==> Usable(items[i]))
    && (forall i :: 1 <= i < |items| ==> HasEarlierParent(items, i))
  }

  ghost predicate HasEarlierParent(items: seq<RemoteItem>, i: nat)
    requires i < |items|
  {
    exists j :: 0 <= j < i && items[j].kind.Folder? && items[i].parentRemoteId == Some(items[j].remoteId)
  }

  lemma {:induction false} UniqueGrows(items: seq<RemoteItem>, item: RemoteItem)
    requires UniqueIds(items) && item.remoteId !in Ids(items)
    ensures UniqueIds(items + [item])
  {
    assert forall i :: 0 <= i < |items| ==> items[i].remoteId in Ids(items);
  }

  lemma {:induction false} EarlierParentStays(items: seq<RemoteItem>, item: RemoteItem, i: nat)
    requires i < |items| && HasEarlierParent(items, i)
    ensures HasEarlierParent(items + [item], i)
  {
    var j :| 0 <= j < i && items[j].kind.Folder? && items[i].parentRemoteId == Some(items[j].remoteId);
    assert (items + [item])[j] == items[j];
  }

  lemma {:induction false} WalkedGrows(root: RemoteItem, items: seq<RemoteItem>, seen: set<Id>, parent: Id,
                                       item: RemoteItem)
    requires Walked(root, items, seen) && ValidateHydrationChild(parent, item, seen).Ok? && parent in FolderIds(items)
    ensures Walked(root, items + [item], seen + {item.remoteId})
  {
    var grown, n := items + [item], |items|;
    ValidIdIsNotBlank(item.remoteId);
    IdsGrow(items, item);
    UniqueGrows(items, item);
    FolderIdsMember(items, parent);
    var j :| 0 <= j < n && items[j].kind.Folder? && items[j].remoteId == parent;
    assert grown[j] == items[j] && grown[n] == item;
    assert HasEarlierParent(grown, n);
    forall i | 1 <= i < n
      ensures HasEarlierParent(grown, i)
    {
      EarlierParentStays(items, item, i);
    }
  }

  lemma {:induction false} ChildrenWalked(root: RemoteItem, items: seq<RemoteItem>, parent: Id,
                                          children: seq<RemoteItem>, n: nat)
    requires Walked(root, items, Ids(items)) && parent in FolderIds(items) && n <= |children|
    requires ChildrenFailure(parent, items, children, n).None?
    ensures Walked(root, items + children[..n], Ids(items + children[..n]))
    ensures n > 0 ==> |items| + n <= MAX_ITEMS
    decreases n
  {
    if n == 0 {
      assert items + children[..0] == items;
    } else {
      ChildrenWalked(root, items, parent, children, n - 1);
      var before := items + children[..n - 1];
      assert items + children[..n] == before + [children[n - 1]];
      FolderIdsConcat(items, children[..n - 1]);
      IdsGrow(before, children[n - 1]);
      WalkedGrows(root, before, Ids(before), parent, children[n - 1]);
    }
  }

  /** Folders are opened in listing order, and requests are about listed folders. */
  ghost predicate OpensInOrder(root: RemoteItem, log: seq<Request>) {
    && OpenedIds(log) <= FolderIds(ItemsOf(root, log))
    && (log != [] ==> log[|log| - 1].parent in FolderIds(ItemsOf(root, log)))
  }

  lemma {:induction false} OpensNext(root: RemoteItem, before: seq<Request>, request: Request)
    requires OpensInOrder(root, before) && NextRequest(root, before) == Some((request.parent, request.token))
    ensures request.parent in FolderIds(ItemsOf(root, before))
    ensures OpensInOrder(root, before + [request])
  {
    var folders := FolderIds(ItemsOf(root, before));
    LogPush(root, before, request);
    FolderIdsConcat(ItemsOf(root, before), request.page.items);
    if request.token.None? {
      assert OpenedIds(before) + [folders[|OpenedIds(before)|]] == folders[..|OpenedIds(before)| + 1];
    }
  }

  /** What every run keeps: a connected list of distinct items, within the limits, and folders opened in order. */
  ghost predicate Kept(root: RemoteItem, log: seq<Request>) {
    && Walked(root, ItemsOf(root, log), Ids(ItemsOf(root, log)))
    && |ItemsOf(root, log)| <= MAX_ITEMS && UnsupportedOf(log) <= U64_MAX
    && OpensInOrder(root, log)
  }

  lemma {:induction false} KeptAtStart(root: RemoteItem)
    requires ValidateHydrationRoot(root).Ok?
    ensures Kept(root, [])
  {
    ValidIdIsNotBlank(root.remoteId);
  }

  lemma {:induction false} KeptByPage(root: RemoteItem, before: seq<Request>, request: Request)
    requires Kept(root, before) && NextRequest(root, before) == Some((request.parent, request.token))
    requires PageFailure(root, before, request.parent, request.token, request.page).None?
    ensures Kept(root, before + [request])
  {
    var children := request.page.items;
    LogPush(root, before, request);
    OpensNext(root, before, request);
    ChildrenWalked(root, ItemsOf(root, before), request.parent, children, |children|);
    assert children[..|children|] == children;
  }

  lemma {:induction false} KeptByLog(listing: Listing, root: RemoteItem, log: seq<Request>)
    requires IsLog(listing, root, log) && ValidateHydrationRoot(root).Ok?
    ensures Kept(root, log)
  {
    KeptAtStart(root);
    forall before, request | Kept(root, before) && IsNextAnswer(listing, root, before, request)
      ensures Kept(root, before + [request])
    {
      KeptByPage(root, before, request);
    }
    LogInduction(listing, root, log, l => Kept(root, l));
  }

  /** Whatever the walk collects is a whole subtree of its folder. */
  lemma {:induction false} WalkedIsWholeSubtree(root: RemoteItem, items: seq<RemoteItem>, seen: set<Id>)
    requires Walked(root, items, seen) && root.kind.Folder?
    ensures IsWholeSubtree(root, items)
  {
    CatchUp.TailIds(items);
    KeysOfParents(items[1..]);
    forall y | y in ParentsOf(items[1..])
      ensures StrictlyUnder(ParentsOf(items[1..]), y, root.remoteId)
    {
      var i :| 0 <= i < |items[1..]| && items[1..][i].remoteId == y;
      ChainToRoot(root, items, seen, i + 1);
    }
  }

  lemma {:induction false} ChainToRoot(root: RemoteItem, items: seq<RemoteItem>, seen: set<Id>, i: nat)
    requires Walked(root, items, seen) && 1 <= i < |items|
    ensures StrictlyUnder(ParentsOf(items[1..]), items[i].remoteId, root.remoteId)
    decreases i
  {
    var ps := ParentsOf(items[1..]);
    CatchUp.TailIds(items);
    ParentAt(items[1..], i - 1);
    assert HasEarlierParent(items, i);
    var j :| 0 <= j < i && items[j].kind.Folder? && items[i].parentRemoteId == Some(items[j].remoteId);
    if j > 0 {
      ChainToRoot(root, items, seen, j);
    }
    UnderCases(ps, items[j].remoteId, root.remoteId);
    UnderStep(ps, items[i].remoteId, root.remoteId);
  }

  lemma {:induction false} FolderIdsDistinct(items: seq<RemoteItem>)
    requires UniqueIds(items)
    ensures NoDuplicates(FolderIds(items))
    decreases |items|
  {
    if items != [] {
      var n := |items| - 1;
      FolderIdsDistinct(items[..n]);
      FolderIdsMember(items[..n], items[n].remoteId);
    }
  }

  /**
   What the walk produces passes the hydration check: against any provider, a run that succeeds has
   asked for every listed folder exactly once, in order, kept its limits, and collected a whole
   subtree of its folder.
   */
  lemma {:induction false} RunPassesCheck(listing: Listing, root: RemoteItem, log: seq<Request>,
                                          hydration: SubtreeHydration)
    requires ValidateHydrationRoot(root).Ok? && IsHydrationRun(listing, root, log, Ok(hydration))
    ensures IsWholeSubtree(root, hydration.items) && HydrationVerdict(root, hydration.items).Ok?
    ensures OpenedIds(log) == FolderIds(hydration.items) && NoDuplicates(OpenedIds(log))
    ensures hydration.pageCount <= MAX_PAGES && |hydration.items| <= MAX_ITEMS
            && hydration.unsupportedProviderNative <= U64_MAX
  {
    KeptByLog(listing, root, log);
    WalkedIsWholeSubtree(root, hydration.items, Ids(hydration.items));
    VerdictIff(root, hydration.items);
    FolderIdsDistinct(hydration.items);
  }

  /** The ids of a page and of the pages after it, as a provider that lists `w` would return them. */
  type Remaining = (Id, Option<string>) -> set<Id>

  ghost predicate PageIsTrue(w: World, remaining: Remaining, parent: Id, token: Option<string>, page: Page) {
    && (forall i :: 0 <= i < |page.items| ==> page.items[i].remoteId in w && page.items[i] == w[page.items[i].remoteId])
    && remaining(parent, token)
       == Ids(page.items) + if page.continuation.Some? then remaining(parent, page.continuation) else {}
  }

  /** The provider lists the forest `w`: following the pages of a folder gives its children. */
  ghost predicate ListsForest(listing: Listing, w: World, remaining: Remaining) {
    && (forall n, p, t :: listing(n, p, t).Ok? ==> PageIsTrue(w, remaining, p, t, listing(n, p, t).value))
    && (forall p :: Children(Links(w), p) <= remaining(p, None))
  }

  /** Once a run is over, everything a page promised has been collected. */
  lemma {:induction false} PromisesKept(listing: Listing, w: World, remaining: Remaining, root: RemoteItem,
                                        log: seq<Request>, i: nat)
    requires IsLog(listing, root, log) && ListsForest(listing, w, remaining) && NextRequest(root, log).None?
             && i < |log|
    ensures remaining(log[i].parent, log[i].token) <= Ids(ItemsOf(root, log))
    decreases |log| - i
  {
    var request := log[i];
    assert IsNextAnswer(listing, root, log[..i], request);
    PageCollected(root, log, i);
    if request.page.continuation.Some? && i + 1 < |log| {
      assert IsNextAnswer(listing, root, log[..i + 1], log[i + 1]);
      PromisesKept(listing, w, remaining, root, log, i + 1);
    }
  }

  lemma {:induction false} PageCollected(root: RemoteItem, log: seq<Request>, i: nat)
    requires i < |log|
    ensures Ids(log[i].page.items) <= Ids(ItemsOf(root, log))
    decreases |log|
  {
    var n := |log| - 1;
    var before, added := ItemsOf(root, log[..n]), log[n].page.items;
    IdsConcat(before, added);
    if i < n {
      PageCollected(root, log[..n], i);
    }
  }

  lemma {:induction false} IdsConcat(a: seq<RemoteItem>, b: seq<RemoteItem>)
    ensures Ids(a + b) == Ids(a) + Ids(b)
  {
    forall i | 0 <= i < |a| ensures a[i].remoteId in Ids(a + b) { assert (a + b)[i] == a[i]; }
    forall i | 0 <= i < |b| ensures b[i].remoteId in Ids(a + b) { assert (a + b)[|a| + i] == b[i]; }
  }

  /** The folders opened are those asked for without a token. */
  lemma {:induction false} OpenedWasAsked(log: seq<Request>, p: Id) returns (i: nat)
    requires p in OpenedIds(log)
    ensures i < |log| && log[i].parent == p && log[i].token.None?
    decreases |log|
  {
    var n := |log| - 1;
    if log[n].token.None? && log[n].parent == p {
      i := n;
    } else {
      i := OpenedWasAsked(log[..n], p);
    }
  }

  lemma {:induction false} ItemsAreTrue(listing: Listing, w: World, remaining: Remaining, root: RemoteItem,
                                        log: seq<Request>)
    requires IsLog(listing, root, log) && ListsForest(listing, w, remaining) && root.remoteId in w
             && w[root.remoteId] == root
    ensures forall i :: 0 <= i < |ItemsOf(root, log)| ==> IsTrue(w, ItemsOf(root, log)[i])
    decreases |log|
  {
    if log != [] {
      LogPrefix(listing, root, log);
      ItemsAreTrue(listing, w, remaining, root, log[..|log| - 1]);
    }
  }

  predicate IsTrue(w: World, item: RemoteItem) {
    item.remoteId in w && item == w[item.remoteId]
  }

  /**
   Against a provider that lists the forest `w`, a run that succeeds has collected the folder and
   exactly everything below it.
   */
  lemma {:induction false} RunHydratesForest(listing: Listing, w: World, remaining: Remaining, root: RemoteItem,
                                             log: seq<Request>,
                                             hydration: SubtreeHydration)
    requires ValidateHydrationRoot(root).Ok? && IsHydrationRun(listing, root, log, Ok(hydration))
             && ListsForest(listing, w, remaining)
    requires root.remoteId in w && w[root.remoteId] == root && DriveAncestry.HasFolderParents(w)
    ensures CatchUp.HydratesFrom(w, root.remoteId, hydration.items)
  {
    var ps, x, items := Links(w), root.remoteId, hydration.items;
    KeptByLog(listing, root, log);
    RunPassesCheck(listing, root, log, hydration);
    ItemsAreTrue(listing, w, remaining, root, log);
    UnderCases(ps, x, x);
    forall i | 0 <= i < |items|
      ensures Under(ps, items[i].remoteId, x)
    {
      CollectedIsBelow(w, root, items, i);
    }
    forall y | y in w && Under(ps, y, x)
      ensures y in Ids(items)
    {
      EverythingCollected(listing, w, remaining, root, log, y);
    }
  }

  lemma {:induction false} EverythingCollected(listing: Listing, w: World, remaining: Remaining, root: RemoteItem,
                                               log: seq<Request>, y: Id)
    requires ValidateHydrationRoot(root).Ok? && IsLog(listing, root, log) && NextRequest(root, log).None?
    requires ListsForest(listing, w, remaining) && root.remoteId in w && w[root.remoteId] == root
             && DriveAncestry.HasFolderParents(w)
    requires Under(Links(w), y, root.remoteId)
    ensures y in Ids(ItemsOf(root, log))
  {
    var ps, x, items := Links(w), root.remoteId, ItemsOf(root, log);
    KeptByLog(listing, root, log);
    assert items[0].remoteId in Ids(items);
    forall c | c in ps && ps[c].Some? && ps[c].value in Ids(items)
      ensures c in Ids(items)
    {
      ChildIsCollected(listing, w, remaining, root, log, c);
    }
    UnderCases(ps, y, x);
    if y != x {
      var n: nat :| n > 0 && Reaches(ps, y, x, n);
      ClosedSetHoldsAll(ps, x, Ids(items), y, n);
    }
  }

  lemma {:induction false} CollectedIsBelow(w: World, root: RemoteItem, items: seq<RemoteItem>, i: nat)
    requires Walked(root, items, Ids(items)) && i < |items|
    requires forall k :: 0 <= k < |items| ==> IsTrue(w, items[k])
    ensures Under(Links(w), items[i].remoteId, root.remoteId)
    decreases i
  {
    UnderCases(Links(w), items[i].remoteId, root.remoteId);
    if i > 0 {
      assert HasEarlierParent(items, i);
      var j :| 0 <= j < i && items[j].kind.Folder? && items[i].parentRemoteId == Some(items[j].remoteId);
      CollectedIsBelow(w, root, items, j);
      assert IsTrue(w, items[i]);
      UnderStep(Links(w), items[i].remoteId, root.remoteId);
    }
  }

  lemma {:induction false} ChildIsCollected(listing: Listing, w: World, remaining: Remaining, root: RemoteItem,
                                            log: seq<Request>, c: Id)
    requires ValidateHydrationRoot(root).Ok? && IsLog(listing, root, log) && NextRequest(root, log).None?
    requires ListsForest(listing, w, remaining) && root.remoteId in w && w[root.remoteId] == root
             && DriveAncestry.HasFolderParents(w)
    requires c in w && w[c].parentRemoteId.Some? && w[c].parentRemoteId.value in Ids(ItemsOf(root, log))
    ensures c in Ids(ItemsOf(root, log))
  {
    var items, p := ItemsOf(root, log), w[c].parentRemoteId.value;
    ItemsAreTrue(listing, w, remaining, root, log);
    var j :| 0 <= j < |items| && items[j].remoteId == p;
    assert IsTrue(w, items[j]);
    FolderIdsMember(items, p);
    KeptByLog(listing, root, log);
    var i := OpenedWasAsked(log, p);
    PromisesKept(listing, w, remaining, root, log, i);
    assert c in Children(Links(w), p);
  }
}
