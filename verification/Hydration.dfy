/** The check that a hydrated folder listing is one whole, connected subtree. */
module Hydration {
  import opened Wrappers
  import opened RemoteCatalog
  import opened Forest
  import opened SubtreeWalk
  import opened CatalogSearch

  datatype HydrationError =
    | InvalidHydrationRoot
    | InvalidHydrationItem
    | DuplicateHydrationRemoteId
    | IncompleteHydration

  /** The parent map that upserting `items` in order builds from nothing. */
  function ParentsOf(items: seq<RemoteItem>): Parents {
    if items == [] then map[]
    else
      var last := items[|items| - 1];
      ParentsOf(items[..|items| - 1])[last.remoteId := last.parentRemoteId]
  }

  ghost predicate UniqueIds(items: seq<RemoteItem>) {
    forall i, j :: 0 <= i < j < |items| ==> items[i].remoteId != items[j].remoteId
  }

  predicate Usable(item: RemoteItem) {
    !Blank(item.remoteId) && item.name != "" && !item.trashed
  }

  /** A folder followed by distinct live items, each connected to the folder through listed parents. */
  ghost predicate IsWholeSubtree(root: RemoteItem, items: seq<RemoteItem>) {
    && items != [] && items[0] == root && root.kind.Folder?
    && (forall i :: 0 <= i < |items| ==>
          !Blank(items[i].remoteId) && items[i].name != "" && !items[i].trashed)
    && UniqueIds(items)
    && Complete(ParentsOf(items[1..]), root.remoteId)
  }

  /** The first complaint of the item loop after `n` items. */
  ghost function FirstItemError(items: seq<RemoteItem>, n: nat): Option<HydrationError>
    requires n <= |items|
  {
    if n == 0 then None
    else if FirstItemError(items, n - 1).Some? then FirstItemError(items, n - 1)
    else if !Usable(items[n - 1]) then Some(InvalidHydrationItem)
    else if exists j :: 0 <= j < n - 1 && items[j].remoteId == items[n - 1].remoteId then
      Some(DuplicateHydrationRemoteId)
    else None
  }

  ghost function HydrationVerdict(root: RemoteItem, items: seq<RemoteItem>): Result<(), HydrationError> {
    if items == [] || items[0] != root || !root.kind.Folder? || root.trashed then Err(InvalidHydrationRoot)
    else if FirstItemError(items, |items|).Some? then Err(FirstItemError(items, |items|).value)
    else if !Complete(ParentsOf(items[1..]), root.remoteId) then Err(IncompleteHydration)
    else Ok(())
  }

  lemma {:induction false} NoItemErrorIff(items: seq<RemoteItem>, n: nat)
    requires n <= |items|
    ensures FirstItemError(items, n).None?
            <==> (forall i :: 0 <= i < n ==> Usable(items[i])) && UniqueIds(items[..n])
  {
    if n > 0 {
      NoItemErrorIff(items, n - 1);
      assert items[..n] == items[..n - 1] + [items[n - 1]];
      if UniqueIds(items[..n]) {
        assert UniqueIds(items[..n - 1]) by {
          assert forall j :: 0 <= j < n - 1 ==> items[..n][j] == items[..n - 1][j];
        }
        assert forall j :: 0 <= j < n - 1 ==> items[..n][j].remoteId != items[..n][n - 1].remoteId;
      }
    }
  }

  /** The check accepts exactly the whole subtrees. */
  lemma {:induction false} VerdictIff(root: RemoteItem, items: seq<RemoteItem>)
    ensures HydrationVerdict(root, items).Ok? <==> IsWholeSubtree(root, items)
  {
    NoItemErrorIff(items, |items|);
    assert items[..|items|] == items;
  }

  function Ids(items: seq<RemoteItem>): set<Id> {
    set i | 0 <= i < |items| :: items[i].remoteId
  }

  lemma {:induction false} KeysOfParents(items: seq<RemoteItem>)
    ensures ParentsOf(items).Keys == Ids(items)
    decreases |items|
  {
    if items != [] {
      var n := |items| - 1;
      KeysOfParents(items[..n]);
      assert Ids(items) == Ids(items[..n]) + {items[n].remoteId};
    }
  }

  lemma {:induction false} ParentAt(items: seq<RemoteItem>, i: nat)
    requires i < |items| && UniqueIds(items)
    ensures items[i].remoteId in ParentsOf(items)
    ensures ParentsOf(items)[items[i].remoteId] == items[i].parentRemoteId
    decreases |items|
  {
    var n := |items| - 1;
    if i < n {
      ParentAt(items[..n], i);
    }
  }

  lemma {:induction false} SizeOfParents(items: seq<RemoteItem>)
    requires UniqueIds(items)
    ensures |ParentsOf(items)| == |items|
    decreases |items|
  {
    if items != [] {
      var n := |items| - 1;
      SizeOfParents(items[..n]);
      KeysOfParents(items[..n]);
    }
  }

  method ValidateHydration(expectedRoot: RemoteItem, hydration: seq<RemoteItem>) returns (r: Result<(), HydrationError>)
    ensures r == HydrationVerdict(expectedRoot, hydration)
    ensures r.Ok? <==> IsWholeSubtree(expectedRoot, hydration)
  {
    VerdictIff(expectedRoot, hydration);
    if hydration == [] {
      return Err(InvalidHydrationRoot);
    }
    var actualRoot := hydration[0];
    if actualRoot != expectedRoot || !actualRoot.kind.Folder? || actualRoot.trashed {
      return Err(InvalidHydrationRoot);
    }

    var ids :- CheckItems(hydration);
    NoItemErrorIff(hydration, |hydration|);
    assert hydration[..|hydration|] == hydration;
    var grouped := GroupByParent(hydration, ids);
    if grouped.Err? {
      return Err(IncompleteHydration);
    }
    ghost var links := ParentsOf(hydration[1..]);
    GroupsAreChildren(hydration, grouped.value);
    SizeOfParents(hydration[1..]);
    var count := CountReached(links, hydration[0].remoteId, grouped.value);
    return if count == |hydration| then Ok(()) else Err(IncompleteHydration);
  }

  /** The loop over single items: each usable, no id twice. */
  method CheckItems(items: seq<RemoteItem>) returns (r: Result<set<Id>, HydrationError>)
    ensures r == if FirstItemError(items, |items|).Some? then Err(FirstItemError(items, |items|).value)
            else Ok(Ids(items))
  {
    var ids: set<Id> := {};
    for k := 0 to |items|
      invariant ids == Ids(items[..k])
      invariant FirstItemError(items, k).None?
    {
      var item := items[k];
      ItemErrorStays(items, k + 1, |items|);
      assert Ids(items[..k + 1]) == Ids(items[..k]) + {item.remoteId};
      if !Usable(item) {
        return Err(InvalidHydrationItem);
      }
      if item.remoteId in ids {
        return Err(DuplicateHydrationRemoteId);
      }
      ids := ids + {item.remoteId};
    }
    assert items[..|items|] == items;
    return Ok(ids);
  }

  /** `grouped` lists, under each parent, the ids of the items after the first that name it. */
  ghost predicate GroupsUpTo(items: seq<RemoteItem>, k: nat, grouped: map<Id, seq<Id>>)
    requires 1 <= k <= |items|
  {
    && (forall p, c :: p in grouped && c in grouped[p] ==> IsChildOf(items, p, c))
    && (forall i :: 1 <= i < k ==> Grouped(items[i], grouped))
  }

  ghost predicate IsChildOf(items: seq<RemoteItem>, p: Id, c: Id) {
    exists i :: 1 <= i < |items| && items[i].remoteId == c && items[i].parentRemoteId == Some(p)
  }

  ghost predicate Grouped(item: RemoteItem, grouped: map<Id, seq<Id>>) {
    item.parentRemoteId.Some? && item.parentRemoteId.value in grouped
    && item.remoteId in grouped[item.parentRemoteId.value]
  }

  /** The loop that collects children by parent, rejecting a parent that is not listed. */
  method GroupByParent(items: seq<RemoteItem>, ids: set<Id>) returns (r: Result<map<Id, seq<Id>>, ()>)
    requires items != [] && UniqueIds(items) && ids == Ids(items)
    ensures r.Ok? ==> GroupsUpTo(items, |items|, r.value)
    ensures r.Err? ==> !Complete(ParentsOf(items[1..]), items[0].remoteId)
  {
    var childrenByParent: map<Id, seq<Id>> := map[];
    for k := 1 to |items|
      invariant GroupsUpTo(items, k, childrenByParent)
    {
      var item := items[k];
      if item.parentRemoteId.None? || item.parentRemoteId.value !in ids {
        NotConnected(items, k);
        return Err(());
      }
      var parent := item.parentRemoteId.value;
      var siblings := if parent in childrenByParent then childrenByParent[parent] else [];
      ghost var before := childrenByParent;
      childrenByParent := childrenByParent[parent := siblings + [item.remoteId]];
      assert forall i :: 1 <= i < k ==> Grouped(items[i], before);
    }
    return Ok(childrenByParent);
  }

  /** The reachability loop over the listed children, from a folder that is nobody's listed child. */
  method CountReached(ghost ps: Parents, root: Id, childrenByParent: map<Id, seq<Id>>) returns (count: nat)
    requires root !in ps
    requires GroupsMatch(ps, childrenByParent)
    ensures count == |ps| + 1 <==> Complete(ps, root)
  {
    var queue, reached := [root], {root};
    ghost var found: set<Id> := {};
    SearchStarts(ps, root);
    while queue != []
      invariant root !in found && reached == found + {root}
      invariant Searching(ps, root, found, queue, None)
      decreases ps.Keys - found, |queue|
    {
      var parent := queue[0];
      SearchPops(ps, root, found, queue);
      queue := queue[1..];
      GroupIsChildren(ps, childrenByParent, parent);
      found, reached, queue :=
        InsertChildren(ps, root, {root}, found, parent, GroupOf(childrenByParent, parent), reached, queue);
      assert found <= ps.Keys;
    }
    SearchFinished(ps, root, found);
    count := |reached|;
  }

  /** `grouped` lists exactly the children of every parent. */
  ghost predicate GroupsMatch(ps: Parents, grouped: map<Id, seq<Id>>) {
    forall p, c :: ChildMatches(ps, grouped, p, c)
  }

  ghost predicate ChildMatches(ps: Parents, grouped: map<Id, seq<Id>>, p: Id, c: Id) {
    c in Children(ps, p) <==> c in GroupOf(grouped, p)
  }

  lemma {:induction false} GroupIsChildren(ps: Parents, grouped: map<Id, seq<Id>>, p: Id)
    requires GroupsMatch(ps, grouped)
    ensures forall c :: c in Children(ps, p) <==> c in GroupOf(grouped, p)
  {
    forall c
      ensures c in Children(ps, p) <==> c in GroupOf(grouped, p)
    {
      assert ChildMatches(ps, grouped, p, c);
    }
  }

  function GroupOf(grouped: map<Id, seq<Id>>, p: Id): seq<Id> {
    if p in grouped then grouped[p] else []
  }

  lemma {:induction false} GroupsAreChildren(items: seq<RemoteItem>, grouped: map<Id, seq<Id>>)
    requires items != [] && UniqueIds(items) && GroupsUpTo(items, |items|, grouped)
    ensures items[0].remoteId !in ParentsOf(items[1..])
    ensures GroupsMatch(ParentsOf(items[1..]), grouped)
  {
    var rest := items[1..];
    var ps := ParentsOf(rest);
    KeysOfParents(rest);
    forall i | 0 <= i < |rest|
      ensures rest[i].remoteId in ps && ps[rest[i].remoteId] == rest[i].parentRemoteId
    {
      ParentAt(rest, i);
    }
    forall p, c
      ensures ChildMatches(ps, grouped, p, c)
    {
      if c in Children(ps, p) {
        var i :| 0 <= i < |rest| && rest[i].remoteId == c;
        assert Grouped(items[i + 1], grouped);
      }
      if p in grouped && c in grouped[p] {
        assert IsChildOf(items, p, c);
        var i :| 1 <= i < |items| && items[i].remoteId == c && items[i].parentRemoteId == Some(p);
        assert items[i] == rest[i - 1];
      }
    }
  }

  lemma {:induction false} ItemErrorStays(items: seq<RemoteItem>, m: nat, n: nat)
    requires m <= n <= |items|
    ensures FirstItemError(items, m).Some? ==> FirstItemError(items, n) == FirstItemError(items, m)
    decreases n
  {
    if m < n {
      ItemErrorStays(items, m, n - 1);
    }
  }

  /** An item whose parent is not listed cannot be connected to the listed folder. */
  lemma {:induction false} NotConnected(items: seq<RemoteItem>, k: nat)
    requires 1 <= k < |items| && UniqueIds(items)
    requires items[k].parentRemoteId.Some? ==> items[k].parentRemoteId.value !in Ids(items)
    ensures !Complete(ParentsOf(items[1..]), items[0].remoteId)
  {
    var rest, root, item := items[1..], items[0].remoteId, items[k];
    assert item == rest[k - 1];
    ParentAt(rest, k - 1);
    KeysOfParents(rest);
    assert Ids(rest) <= Ids(items) by {
      forall i | 0 <= i < |rest| ensures rest[i].remoteId in Ids(items) { assert rest[i] == items[i + 1]; }
    }
    assert root in Ids(items);
    UnderCases(ParentsOf(rest), item.remoteId, root);
    if item.parentRemoteId.Some? {
      UnderStep(ParentsOf(rest), item.remoteId, root);
      UnderCases(ParentsOf(rest), item.parentRemoteId.value, root);
    }
  }
}
