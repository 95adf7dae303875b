/** The path builder: from an unordered catalog listing to the canonical list of expected paths. */
module ExpectedPaths {
  import opened Wrappers
  import opened RemoteCatalog
  import opened Forest
  import opened SubtreeWalk
  import opened Hydration
  import opened Sorting
  import opened Paths
  import opened RemoteTree

  /** The first complaint of the item loop after `n` items. */
  ghost function FirstItemIssue(items: seq<RemoteItem>, n: nat): Option<MaterializationError>
    requires n <= |items|
  {
    if n == 0 then None
    else if FirstItemIssue(items, n - 1).Some? then FirstItemIssue(items, n - 1)
    else ItemIssueAt(items, n - 1)
  }

  ghost function ItemIssueAt(items: seq<RemoteItem>, k: nat): Option<MaterializationError>
    requires k < |items|
  {
    if !Placeable(items[k]) then Some(InvalidRemoteItem)
    else if !SafeName(items[k].name) then Some(UnsafeRemoteName)
    else if exists j :: 0 <= j < k && items[j].remoteId == items[k].remoteId then Some(DuplicateRemoteId)
    else None
  }

  /** The first complaint of the parent loop after `n` items. */
  ghost function FirstParentIssue(items: seq<RemoteItem>, n: nat): Option<MaterializationError>
    requires n <= |items|
  {
    if n == 0 then None
    else if FirstParentIssue(items, n - 1).Some? then FirstParentIssue(items, n - 1)
    else ParentIssueAt(items, n - 1)
  }

  ghost function ParentIssueAt(items: seq<RemoteItem>, k: nat): Option<MaterializationError>
    requires k < |items|
  {
    if exists j :: 0 <= j < k && SameSpot(items[j], items[k]) then Some(DuplicateSiblingName)
    else if exists j ::
      0 <= j < |items| && items[k].parentRemoteId == Some(items[j].remoteId) && items[j].kind.File? then
      Some(InvalidRemoteParentKind)
    else None
  }

  /** What the builder complains about, if anything. */
  ghost function BuildIssue(items: seq<RemoteItem>): Option<MaterializationError> {
    if items == [] then None
    else if FirstItemIssue(items, |items|).Some? then FirstItemIssue(items, |items|)
    else if FirstParentIssue(items, |items|).Some? then FirstParentIssue(items, |items|)
    else if |Externals(items)| != 1 || !Complete(ParentsOf(items), RootOf(items)) then Some(IncompleteRemoteCatalog)
    else None
  }

  lemma {:induction false} ItemIssueIff(items: seq<RemoteItem>, n: nat)
    requires n <= |items|
    ensures FirstItemIssue(items, n).None? <==>
            (forall i :: 0 <= i < n ==> Placeable(items[i]) && SafeName(items[i].name)) && UniqueIds(items[..n])
  {
    if n > 0 {
      ItemIssueIff(items, n - 1);
      var a, b := items[..n], items[..n - 1];
      assert a == b + [items[n - 1]];
      if UniqueIds(a) {
        assert forall j :: 0 <= j < n - 1 ==> a[j] == b[j];
        assert UniqueIds(b);
        assert forall j :: 0 <= j < n - 1 ==> a[j].remoteId != a[n - 1].remoteId;
      }
    }
  }

  lemma {:induction false} ParentIssueIff(items: seq<RemoteItem>, n: nat)
    requires n <= |items|
    ensures FirstParentIssue(items, n).None? <==>
            (forall i, j :: 0 <= i < j < n ==> !SameSpot(items[i], items[j]))
            && (forall i, j :: 0 <= i < |items| && 0 <= j < n && items[j].parentRemoteId == Some(items[i].remoteId)
                  ==> items[i].kind.Folder?)
  {
    if n > 0 {
      ParentIssueIff(items, n - 1);
    }
  }

  /** The builder accepts exactly the remote trees. */
  lemma {:induction false} BuildIssueIff(items: seq<RemoteItem>)
    ensures BuildIssue(items).None? <==> items == [] || IsRemoteTree(items)
  {
    var n := |items|;
    assert items[..n] == items;
    ItemIssueIff(items, n);
    ParentIssueIff(items, n);
    assert FirstParentIssue(items, n).None? <==> UniqueSiblings(items) && FolderParents(items);
  }

  lemma {:induction false} IssuesStay(items: seq<RemoteItem>, m: nat, n: nat)
    requires m <= n <= |items|
    ensures FirstItemIssue(items, m).Some? ==> FirstItemIssue(items, n) == FirstItemIssue(items, m)
    ensures FirstParentIssue(items, m).Some? ==> FirstParentIssue(items, n) == FirstParentIssue(items, m)
    decreases n
  {
    if m < n {
      IssuesStay(items, m, n - 1);
    }
  }

  /** The listed children of `p`, in listing order. */
  function ItemsUnder(items: seq<RemoteItem>, p: Id): seq<RemoteItem> {
    if items == [] then []
    else
      var n := |items| - 1;
      ItemsUnder(items[..n], p) + if items[n].parentRemoteId == Some(p) then [items[n]] else []
  }

  function ChildrenIn(grouped: map<Id, seq<RemoteItem>>, p: Id): seq<RemoteItem> {
    if p in grouped then grouped[p] else []
  }

  function IdsOf(items: seq<RemoteItem>): seq<Id> {
    seq(|items|, i requires 0 <= i < |items| => items[i].remoteId)
  }

  function EntryIds(entries: seq<ExpectedPath>): seq<Id> {
    seq(|entries|, i requires 0 <= i < |entries| => entries[i].item.remoteId)
  }

  lemma {:induction false} ItemsUnderMembers(items: seq<RemoteItem>, p: Id, item: RemoteItem)
    ensures item in ItemsUnder(items, p) <==> item in items && item.parentRemoteId == Some(p)
    decreases |items|
  {
    if items != [] {
      var n := |items| - 1;
      ItemsUnderMembers(items[..n], p, item);
      assert items == items[..n] + [items[n]];
    }
  }

  lemma {:induction false} ItemsUnderDistinct(items: seq<RemoteItem>, p: Id)
    requires UniqueIds(items)
    ensures UniqueIds(ItemsUnder(items, p))
    decreases |items|
  {
    if items != [] {
      var n := |items| - 1;
      ItemsUnderDistinct(items[..n], p);
      var init := ItemsUnder(items[..n], p);
      forall i | 0 <= i < |init|
        ensures init[i].remoteId != items[n].remoteId
      {
        ItemsUnderMembers(items[..n], p, init[i]);
        var k :| 0 <= k < n && items[..n][k] == init[i];
        assert items[k].remoteId != items[n].remoteId;
      }
    }
  }

  method CheckRemoteItems(items: seq<RemoteItem>) returns (r: Result<map<Id, RemoteItemKind>, MaterializationError>)
    ensures r.Err? ==> FirstItemIssue(items, |items|) == Some(r.error)
    ensures r.Ok? ==> FirstItemIssue(items, |items|).None? && KindsOf(items, r.value)
  {
    var kindById: map<Id, RemoteItemKind> := map[];
    for k := 0 to |items|
      invariant FirstItemIssue(items, k).None? && KindsOf(items[..k], kindById)
    {
      var item := items[k];
      IssuesStay(items, k + 1, |items|);
      var issue := CheckRemoteItem(items, k, kindById);
      if issue.Some? {
        return Err(issue.value);
      }
      KindsGrow(items, k, kindById);
      kindById := kindById[item.remoteId := item.kind];
    }
    assert items[..|items|] == items;
    return Ok(kindById);
  }

  /** The body of the item loop; `kindById` holds the ids seen so far. */
  method CheckRemoteItem(items: seq<RemoteItem>, k: nat, kindById: map<Id, RemoteItemKind>)
    returns (issue: Option<MaterializationError>)
    requires k < |items| && kindById.Keys == Ids(items[..k])
    ensures issue == ItemIssueAt(items, k)
  {
    var item := items[k];
    assert forall j :: 0 <= j < k ==> items[..k][j].remoteId in Ids(items[..k]);
    return if !Placeable(item) then Some(InvalidRemoteItem)
      else if !SafeName(item.name) then Some(UnsafeRemoteName)
      else if item.remoteId in kindById then Some(DuplicateRemoteId)
      else None;
  }

  lemma {:induction false} KindsGrow(items: seq<RemoteItem>, k: nat, kinds: map<Id, RemoteItemKind>)
    requires k < |items| && KindsOf(items[..k], kinds) && items[k].remoteId !in kinds
    ensures KindsOf(items[..k + 1], kinds[items[k].remoteId := items[k].kind])
  {
    var a, b := items[..k + 1], items[..k];
    assert a == b + [items[k]];
    assert Ids(a) == Ids(b) + {items[k].remoteId};
    assert forall i :: 0 <= i < k ==> a[i] == b[i];
  }

  ghost predicate KindsOf(items: seq<RemoteItem>, kinds: map<Id, RemoteItemKind>) {
    && kinds.Keys == Ids(items)
    && forall i :: 0 <= i < |items| ==> items[i].remoteId in kinds && kinds[items[i].remoteId] == items[i].kind
  }

  function Spots(items: seq<RemoteItem>): set<(Option<Id>, string)> {
    set i | 0 <= i < |items| :: (items[i].parentRemoteId, items[i].name)
  }

  method GroupRemoteItems(items: seq<RemoteItem>, kindById: map<Id, RemoteItemKind>)
    returns (r: Result<(set<Id>, map<Id, seq<RemoteItem>>), MaterializationError>)
    requires KindsOf(items, kindById) && forall i :: 0 <= i < |items| ==> items[i].parentRemoteId.Some?
    ensures r.Err? ==> FirstParentIssue(items, |items|) == Some(r.error)
    ensures r.Ok? ==> FirstParentIssue(items, |items|).None? && r.value.0 == Externals(items)
                      && GroupsChildren(items, r.value.1)
  {
    var externals: set<Id> := {};
    var childrenByParent: map<Id, seq<RemoteItem>> := map[];
    var spots := {};
    for k := 0 to |items|
      invariant FirstParentIssue(items, k).None?
      invariant externals == ParentsNamed(items[..k]) - Ids(items)
      invariant spots == Spots(items[..k])
      invariant GroupsChildren(items[..k], childrenByParent)
    {
      var item := items[k];
      var parent := item.parentRemoteId.value;
      IssuesStay(items, k + 1, |items|);
      var issue := CheckRemoteParent(items, k, kindById, spots);
      if issue.Some? {
        return Err(issue.value);
      }
      NextItem(items, k, childrenByParent);
      if parent !in kindById {
        externals := externals + {parent};
      }
      childrenByParent := childrenByParent[parent := ChildrenIn(childrenByParent, parent) + [item]];
      spots := spots + {(item.parentRemoteId, item.name)};
    }
    assert items[..|items|] == items;
    return Ok((externals, childrenByParent));
  }

  /** The body of the parent loop; `spots` holds the (parent, name) pairs seen so far. */
  method CheckRemoteParent(items: seq<RemoteItem>, k: nat, kindById: map<Id, RemoteItemKind>,
                           spots: set<(Option<Id>, string)>)
    returns (issue: Option<MaterializationError>)
    requires k < |items| && KindsOf(items, kindById) && spots == Spots(items[..k]) && items[k].parentRemoteId.Some?
    ensures issue == ParentIssueAt(items, k)
  {
    var item := items[k];
    var parent := item.parentRemoteId.value;
    forall j | 0 <= j < k
      ensures (items[j].parentRemoteId, items[j].name) in spots
    {
      assert items[..k][j] == items[j];
    }
    if (item.parentRemoteId, item.name) in spots {
      var j :| 0 <= j < k && (items[..k][j].parentRemoteId, items[..k][j].name) == (item.parentRemoteId, item.name);
      assert SameSpot(items[j], items[k]);
      return Some(DuplicateSiblingName);
    }
    if parent in kindById && kindById[parent].File? {
      var j :| 0 <= j < |items| && items[j].remoteId == parent;
      return Some(InvalidRemoteParentKind);
    }
    return None;
  }

  /** Under every parent, `grouped` lists its items. */
  ghost predicate GroupsChildren(items: seq<RemoteItem>, grouped: map<Id, seq<RemoteItem>>) {
    forall p :: ChildrenIn(grouped, p) == ItemsUnder(items, p)
  }

  lemma {:induction false} NextItem(items: seq<RemoteItem>, k: nat, grouped: map<Id, seq<RemoteItem>>)
    requires k < |items| && items[k].parentRemoteId.Some? && GroupsChildren(items[..k], grouped)
    ensures ParentsNamed(items[..k + 1]) == ParentsNamed(items[..k]) + {items[k].parentRemoteId.value}
    ensures Spots(items[..k + 1]) == Spots(items[..k]) + {(items[k].parentRemoteId, items[k].name)}
    ensures GroupsChildren(items[..k + 1],
                    grouped[items[k].parentRemoteId.value :=
                            ChildrenIn(grouped, items[k].parentRemoteId.value) + [items[k]]])
  {
    var a, b, parent := items[..k + 1], items[..k], items[k].parentRemoteId.value;
    assert a == b + [items[k]] && a[..k] == b;
    var grown := grouped[parent := ChildrenIn(grouped, parent) + [items[k]]];
    forall p
      ensures ChildrenIn(grown, p) == ItemsUnder(a, p)
    {
      assert ChildrenIn(grouped, p) == ItemsUnder(b, p);
    }
  }
}
