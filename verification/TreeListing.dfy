/** The breadth-first loop of the path builder, and the builder itself. */
module TreeListing {
  import opened Wrappers
  import opened RemoteCatalog
  import opened Forest
  import opened SubtreeWalk
  import opened Hydration
  import opened Sorting
  import opened Paths
  import opened RemoteTree
  import opened ExpectedPaths

  predicate NameThenId(a: RemoteItem, b: RemoteItem) {
    Less(a.name, b.name) || (a.name == b.name && Less(a.remoteId, b.remoteId))
  }

  lemma {:induction false} NameThenIdOrder()
    ensures IsStrictOrder(NameThenId)
  {
    forall x: RemoteItem, y: RemoteItem
      ensures !(NameThenId(x, y) && NameThenId(y, x))
    {
      LessIsTotal(x.name, y.name);
      LessIsTotal(x.remoteId, y.remoteId);
    }
    forall x: RemoteItem, y: RemoteItem, z: RemoteItem
      ensures NameThenId(x, y) && NameThenId(y, z) ==> NameThenId(x, z)
    {
      LessIsTransitive(x.name, y.name, z.name);
      LessIsTransitive(x.remoteId, y.remoteId, z.remoteId);
    }
  }

  /** The listing loop's state: `out` is popped, `queue` waits; the root is popped before either. */
  ghost predicate Listing(w: World, root: Id, out: seq<ExpectedPath>, queue: seq<ExpectedPath>) {
    && root !in w
    && (forall e :: e in out + queue ==> IsEntry(w, root, e))
    && StrictlySorted(EntryBefore, out + queue)
    && Walk(Links(w), root, [root] + EntryIds(out), EntryIds(queue))
  }

  /** Entries for the children of one parent: complete, and sorted by name. */
  ghost predicate AreChildEntries(w: World, parent: Id, kids: seq<ExpectedPath>) {
    && Lists(EntryIds(kids), Children(Links(w), parent))
    && (forall e :: e in kids ==> e.item.remoteId in w && w[e.item.remoteId] == e.item && SafeName(e.item.name))
    && (forall i, j :: 0 <= i < j < |kids| ==> Less(kids[i].item.name, kids[j].item.name))
  }

  lemma {:induction false} TopWalk(w: World, root: Id, top: seq<Id>)
    requires root !in w && Lists(top, Children(Links(w), root))
    ensures Walk(Links(w), root, [root], top)
  {
    WalkStarts(Links(w), root);
    UnderCases(Links(w), root, root);
    WalkContinues(Links(w), root, [], [root], top);
    assert [root][1..] + top == top;
    assert [] + [[root][0]] == [root];
  }

  lemma {:induction false} KidIsChild(w: World, parent: Id, kids: seq<ExpectedPath>, k: nat)
    requires AreChildEntries(w, parent, kids) && k < |kids|
    ensures kids[k].item.remoteId in w && w[kids[k].item.remoteId] == kids[k].item
    ensures kids[k].item.parentRemoteId == Some(parent) && SafeName(kids[k].item.name)
  {
    assert kids[k] in kids;
    assert EntryIds(kids)[k] in EntryIds(kids);
    assert EntryIds(kids)[k] in Children(Links(w), parent);
  }

  lemma {:induction false} ListingStarts(w: World, root: Id, top: seq<ExpectedPath>)
    requires root !in w && AreChildEntries(w, root, top)
    requires forall e :: e in top ==> e.path == e.item.name
    ensures Listing(w, root, [], top)
  {
    TopWalk(w, root, EntryIds(top));
    assert [root] + EntryIds([]) == [root];
    assert [] + top == top;
    forall k | 0 <= k < |top|
      ensures IsEntry(w, root, top[k]) && Split(top[k].path) == [top[k].item.name]
    {
      var e := top[k];
      KidIsChild(w, root, top, k);
      assert e in top;
      SplitOfPlain(e.path);
      SafePathIff(e.path);
      TopHasPath(w, root, e.item.remoteId, e.path);
    }
  }

  lemma {:induction false} PoppedParent(ps: Parents, x: Id, done: seq<Id>, queue: seq<Id>, i: nat) returns (j: nat)
    requires Walk(ps, x, done, queue) && 0 < i < |done + queue|
    ensures j < i && j < |done| && (done + queue)[i] in ps && ps[(done + queue)[i]] == Some(done[j])
  {
    assert ParentPopped(ps, done, done + queue, i);
    j :| 0 <= j < i && j < |done| && ps[(done + queue)[i]] == Some(done[j]);
  }

  lemma {:induction false} IdAt(root: Id, out: seq<ExpectedPath>, queue: seq<ExpectedPath>, i: nat)
    requires i < |out + queue|
    ensures ([root] + EntryIds(out) + EntryIds(queue))[i + 1] == (out + queue)[i].item.remoteId
    ensures forall j :: 0 <= j <= |out| ==>
              ([root] + EntryIds(out))[j] == if j == 0 then root else out[j - 1].item.remoteId
  {
  }

  /** Every listed or waiting entry is a top-level item or a child of an earlier listed one. */
  lemma {:induction false} ParentIsListed(w: World, root: Id, out: seq<ExpectedPath>, queue: seq<ExpectedPath>, i: nat)
    returns (j: nat)
    requires Listing(w, root, out, queue) && i < |out + queue|
    ensures j <= |out| && j <= i
    ensures (out + queue)[i].item.parentRemoteId == Some(if j == 0 then root else out[j - 1].item.remoteId)
  {
    var q := (out + queue)[i];
    assert q in out + queue && IsEntry(w, root, q);
    IdAt(root, out, queue, i);
    j := PoppedParent(Links(w), root, [root] + EntryIds(out), EntryIds(queue), i + 1);
  }

  /** The depth of a listed or waiting entry, against the entry about to be popped. */
  lemma {:induction false} QueueIsShallow(w: World, root: Id, out: seq<ExpectedPath>, queue: seq<ExpectedPath>, i: nat,
                                          x: string)
    requires Listing(w, root, out, queue) && queue != [] && i < |out + queue|
    ensures var q, front := Split((out + queue)[i].path), Split(queue[0].path);
            |q| < |front| + 1 || (|q| == |front| + 1 && LexLess(q, front + [x]))
  {
    var all := out + queue;
    var q, front := all[i], queue[0];
    var j := ParentIsListed(w, root, out, queue, i);
    assert q in all && front in all;
    if j == 0 {
      TopHasPath(w, root, q.item.remoteId, q.path);
    } else {
      var parent := out[j - 1];
      assert parent in all;
      ChildHasPath(w, root, q.item.remoteId, q.path, parent.path);
      assert all[j - 1] == parent && all[|out|] == front;
      assert EntryBefore(parent, front);
      if Depth(parent.path) == Depth(front.path) {
        LexLessExtends(Split(parent.path), Split(front.path), q.item.name, x);
      }
    }
  }

  lemma {:induction false} KidIsEntry(w: World, root: Id, front: ExpectedPath, kids: seq<ExpectedPath>, k: nat)
    requires root !in w && IsEntry(w, root, front) && AreChildEntries(w, front.item.remoteId, kids) && k < |kids|
    requires kids[k].path == front.path + "/" + kids[k].item.name
    ensures IsEntry(w, root, kids[k]) && Split(kids[k].path) == Split(front.path) + [kids[k].item.name]
  {
    KidIsChild(w, front.item.remoteId, kids, k);
    ChildPath(front.path, kids[k].item.name);
    ChildHasPath(w, root, kids[k].item.remoteId, kids[k].path, front.path);
  }

  lemma {:induction false} WalkPops(w: World, root: Id, out: seq<ExpectedPath>, queue: seq<ExpectedPath>,
                                    kids: seq<ExpectedPath>)
    requires Listing(w, root, out, queue) && queue != []
    requires Lists(EntryIds(kids), Children(Links(w), queue[0].item.remoteId))
    ensures Walk(Links(w), root, [root] + EntryIds(out + [queue[0]]), EntryIds(queue[1..] + kids))
  {
    UnderCases(Links(w), root, root);
    assert EntryIds(queue)[0] == queue[0].item.remoteId;
    WalkContinues(Links(w), root, [root] + EntryIds(out), EntryIds(queue), EntryIds(kids));
    assert EntryIds(queue)[1..] + EntryIds(kids) == EntryIds(queue[1..] + kids);
    assert [root] + EntryIds(out) + [queue[0].item.remoteId] == [root] + EntryIds(out + [queue[0]]);
  }

  lemma {:induction false} ListingContinues(w: World, root: Id, out: seq<ExpectedPath>, queue: seq<ExpectedPath>,
                                            kids: seq<ExpectedPath>)
    requires Listing(w, root, out, queue) && queue != []
    requires AreChildEntries(w, queue[0].item.remoteId, kids)
    requires forall e :: e in kids ==> e.path == queue[0].path + "/" + e.item.name
    ensures Listing(w, root, out + [queue[0]], queue[1..] + kids)
  {
    var front, all := queue[0], out + queue;
    WalkPops(w, root, out, queue, kids);
    assert front in all;
    assert out + [front] + (queue[1..] + kids) == all + kids;
    forall k | 0 <= k < |kids|
      ensures IsEntry(w, root, kids[k]) && Split(kids[k].path) == Split(front.path) + [kids[k].item.name]
    {
      assert kids[k] in kids;
      KidIsEntry(w, root, front, kids, k);
    }
    forall i, j | 0 <= i < j < |all + kids|
      ensures EntryBefore((all + kids)[i], (all + kids)[j])
    {
      if j >= |all| {
        var kid := kids[j - |all|];
        if i < |all| {
          QueueIsShallow(w, root, out, queue, i, kid.item.name);
        } else {
          var sibling := kids[i - |all|];
          LexLessExtends(Split(front.path), Split(front.path), sibling.item.name, kid.item.name);
        }
      }
    }
  }

  /** The listed ids are distinct and do not include the root. */
  lemma {:induction false} ListedIdsAreDistinct(w: World, root: Id, out: seq<ExpectedPath>, queue: seq<ExpectedPath>)
    requires Listing(w, root, out, queue)
    ensures NoDuplicates(EntryIds(out)) && root !in EntryIds(out)
  {
    var listed := EntryIds(out);
    var all := [root] + listed + EntryIds(queue);
    forall k | 0 <= k < |listed|
      ensures listed[k] != root && forall i :: 0 <= i < k ==> listed[i] != listed[k]
    {
      assert all[0] == root && all[k + 1] == listed[k];
      assert forall i :: 0 <= i < k ==> all[i + 1] == listed[i];
    }
  }

  /** An exhausted listing holds exactly the items below the root. */
  lemma {:induction false} ListedIdsAreBelow(w: World, root: Id, out: seq<ExpectedPath>)
    requires Listing(w, root, out, [])
    ensures Lists(EntryIds(out), set y | y in w && StrictlyUnder(Links(w), y, root))
  {
    var ps, listed := Links(w), EntryIds(out);
    assert EntryIds([]) == [];
    ListedIdsAreDistinct(w, root, out, []);
    WalkFinished(ps, root, [root] + listed);
    UnderCases(ps, root, root);
    forall y
      ensures y in listed <==> y in w && StrictlyUnder(ps, y, root)
    {
      UnderCases(ps, y, root);
      assert y in [root] + listed <==> y == root || y in listed;
    }
  }

  /** So it counts the items exactly when all of them are below the root. */
  lemma {:induction false} ListingFinished(items: seq<RemoteItem>, root: Id, out: seq<ExpectedPath>)
    requires UniqueIds(items) && Listing(ById(items), root, out, [])
    ensures |out| == |items| <==> Complete(ParentsOf(items), root)
    ensures |out| == |items| ==> forall x :: x in ById(items) ==>
              exists k :: 0 <= k < |out| && out[k].item.remoteId == x
  {
    var w := ById(items);
    var below := set y | y in w && StrictlyUnder(Links(w), y, root);
    ByIdKeys(items);
    ByIdSize(items);
    ListedIdsAreBelow(w, root, out);
    ListLength(EntryIds(out), below);
    SubsetSize(below, w.Keys);
    assert |out| == |items| <==> below == w.Keys;
    assert below == w.Keys <==> Complete(Links(w), root);
    forall x | x in below
      ensures exists k :: 0 <= k < |out| && out[k].item.remoteId == x
    {
      assert x in EntryIds(out);
      var k :| 0 <= k < |out| && EntryIds(out)[k] == x;
    }
  }

  /** The sorted children of one parent: each listed child once, in strictly increasing name order. */
  lemma {:induction false} SortedChildren(items: seq<RemoteItem>, p: Id, sorted: seq<RemoteItem>)
    requires UniqueIds(items) && UniqueSiblings(items) && sorted == Sort(NameThenId, ItemsUnder(items, p))
    ensures forall c :: c in sorted ==> c in items && c.parentRemoteId == Some(p)
    ensures forall i, j :: 0 <= i < j < |sorted| ==> Less(sorted[i].name, sorted[j].name)
    ensures Lists(IdsOf(sorted), Children(ParentsOf(items), p))
  {
    var listed := ItemsUnder(items, p);
    NameThenIdOrder();
    ItemsUnderDistinct(items, p);
    forall i, j | 0 <= i < j < |listed|
      ensures NameThenId(listed[i], listed[j]) || NameThenId(listed[j], listed[i])
    {
      LessIsTotal(listed[i].name, listed[j].name);
      LessIsTotal(listed[i].remoteId, listed[j].remoteId);
    }
    SortSorts(NameThenId, listed);
    forall c
      ensures c in sorted <==> c in items && c.parentRemoteId == Some(p)
    {
      ItemsUnderMembers(items, p, c);
    }
    forall i, j | 0 <= i < j < |sorted|
      ensures Less(sorted[i].name, sorted[j].name) && sorted[i].remoteId != sorted[j].remoteId
    {
      assert NameThenId(sorted[i], sorted[j]);
      SiblingsDiffer(items, p, sorted, i, j);
    }
    SortedIds(items, p, sorted);
  }

  lemma {:induction false} SiblingsDiffer(items: seq<RemoteItem>, p: Id, sorted: seq<RemoteItem>, i: nat, j: nat)
    requires UniqueIds(items) && UniqueSiblings(items) && i < j < |sorted| && NameThenId(sorted[i], sorted[j])
    requires forall c :: c in sorted ==> c in items && c.parentRemoteId == Some(p)
    ensures sorted[i].name != sorted[j].name && sorted[i].remoteId != sorted[j].remoteId
  {
    var a, b := sorted[i], sorted[j];
    LessIsTotal(a.name, b.name);
    LessIsTotal(a.remoteId, b.remoteId);
    assert a != b && a in sorted && b in sorted;
    var m :| 0 <= m < |items| && items[m] == a;
    var n :| 0 <= n < |items| && items[n] == b;
    assert !SameSpot(items[m], items[n]) by {
      if m < n { assert !SameSpot(items[m], items[n]); } else { assert !SameSpot(items[n], items[m]); }
    }
  }

  lemma {:induction false} SortedIds(items: seq<RemoteItem>, p: Id, sorted: seq<RemoteItem>)
    requires UniqueIds(items) && UniqueIds(sorted)
    requires forall c :: c in sorted <==> c in items && c.parentRemoteId == Some(p)
    ensures Lists(IdsOf(sorted), Children(ParentsOf(items), p))
  {
    ByIdKeys(items);
    forall x
      ensures x in IdsOf(sorted) <==> x in Children(ParentsOf(items), p)
    {
      if x in IdsOf(sorted) {
        var k :| 0 <= k < |sorted| && IdsOf(sorted)[k] == x;
        assert sorted[k] in sorted;
        ByIdAt(items, sorted[k]);
      }
      if x in Children(ParentsOf(items), p) {
        ByIdMember(items, x);
        var c := ById(items)[x];
        var k :| 0 <= k < |sorted| && sorted[k] == c;
        assert IdsOf(sorted)[k] == x;
      }
    }
  }

  /** The sorted children of `p` as entries; `folder` is the path of `p`, or nothing for the root. */
  method ChildEntries(items: seq<RemoteItem>, childrenByParent: map<Id, seq<RemoteItem>>, p: Id, folder: Option<string>)
    returns (kids: seq<ExpectedPath>)
    requires UniqueIds(items) && UniqueSiblings(items) && GroupsChildren(items, childrenByParent)
    requires forall item :: item in items ==> SafeName(item.name)
    requires folder.Some? ==> SafePath(folder.value)
    ensures AreChildEntries(ById(items), p, kids)
    ensures forall e :: e in kids ==> e.path == ChildPathIn(folder, e.item)
  {
    var children := Sort(NameThenId, ChildrenIn(childrenByParent, p));
    SortedChildren(items, p, children);
    kids := EntriesIn(folder, children);
    EntriesOfChildren(items, p, children, kids);
  }

  method EntriesIn(folder: Option<string>, children: seq<RemoteItem>) returns (kids: seq<ExpectedPath>)
    requires forall c :: c in children ==> SafeName(c.name)
    requires folder.Some? ==> SafePath(folder.value)
    ensures |kids| == |children|
    ensures forall i :: 0 <= i < |kids| ==> kids[i] == ExpectedPath(ChildPathIn(folder, children[i]), children[i])
  {
    kids := [];
    for k := 0 to |children|
      invariant |kids| == k && forall i :: 0 <= i < k ==>
                  kids[i] == ExpectedPath(ChildPathIn(folder, children[i]), children[i])
    {
      var child := children[k];
      assert child in children;
      if folder.Some? {
        ChildPath(folder.value, child.name);
        if !SafePath(ChildPathIn(folder, child)) {
          assert false;
        }
      }
      kids := kids + [ExpectedPath(ChildPathIn(folder, child), child)];
    }
  }

  function ChildPathIn(folder: Option<string>, child: RemoteItem): string {
    if folder.None? then child.name else folder.value + "/" + child.name
  }

  lemma {:induction false} EntriesOfChildren(items: seq<RemoteItem>, p: Id, children: seq<RemoteItem>,
                                             kids: seq<ExpectedPath>)
    requires UniqueIds(items) && |kids| == |children| && forall i :: 0 <= i < |kids| ==> kids[i].item == children[i]
    requires forall c :: c in children ==> c in items && SafeName(c.name)
    requires forall i, j :: 0 <= i < j < |children| ==> Less(children[i].name, children[j].name)
    requires Lists(IdsOf(children), Children(ParentsOf(items), p))
    ensures AreChildEntries(ById(items), p, kids)
  {
    ByIdKeys(items);
    assert EntryIds(kids) == IdsOf(children);
    forall e | e in kids
      ensures e.item.remoteId in ById(items) && ById(items)[e.item.remoteId] == e.item && SafeName(e.item.name)
    {
      var i :| 0 <= i < |kids| && kids[i] == e;
      assert children[i] in children;
      ByIdAt(items, e.item);
    }
  }

  /**
   The breadth-first loop. Its own unsafe-path, revisit and collision errors cannot happen, so an
   incomplete catalog is the only error left.
   */
  method ListTree(items: seq<RemoteItem>, root: Id, childrenByParent: map<Id, seq<RemoteItem>>)
    returns (out: seq<ExpectedPath>)
    requires UniqueIds(items) && UniqueSiblings(items) && FolderParents(items)
             && GroupsChildren(items, childrenByParent)
    requires forall item :: item in items ==> SafeName(item.name)
    requires root !in Ids(items)
    ensures Listing(ById(items), root, out, [])
  {
    ghost var w := ById(items);
    ByIdKeys(items);
    var queue := ChildEntries(items, childrenByParent, root, None);
    out := [];
    var visited: set<Id> := {};
    var seenPaths: set<string> := {};
    ListingStarts(w, root, queue);
    while queue != []
      invariant Listing(w, root, out, queue)
      invariant visited == Elems(EntryIds(out))
      invariant seenPaths == PathsOf(out)
      decreases w.Keys - visited
    {
      var entry := queue[0];
      FrontIsFresh(w, root, out, queue);
      if !SafePath(entry.path) {
        assert false;
      }
      if entry.item.remoteId in visited {
        assert false;
      }
      if entry.path in seenPaths {
        assert false;
      }
      var kids := [];
      if entry.item.kind.Folder? {
        kids := ChildEntries(items, childrenByParent, entry.item.remoteId, Some(entry.path));
      } else {
        FileHasNoChildren(items, entry.item.remoteId);
      }
      ListingContinues(w, root, out, queue, kids);
      ListedSets(out, entry);
      visited := visited + {entry.item.remoteId};
      seenPaths := seenPaths + {entry.path};
      out := out + [entry];
      queue := queue[1..] + kids;
    }
  }

  function PathsOf(entries: seq<ExpectedPath>): set<string> {
    set e | e in entries :: e.path
  }

  lemma {:induction false} ListedSets(out: seq<ExpectedPath>, entry: ExpectedPath)
    ensures Elems(EntryIds(out + [entry])) == Elems(EntryIds(out)) + {entry.item.remoteId}
    ensures PathsOf(out + [entry]) == PathsOf(out) + {entry.path}
  {
    assert EntryIds(out + [entry]) == EntryIds(out) + [entry.item.remoteId];
  }

  lemma {:induction false} FrontIsFresh(w: World, root: Id, out: seq<ExpectedPath>, queue: seq<ExpectedPath>)
    requires Listing(w, root, out, queue) && queue != []
    ensures IsEntry(w, root, queue[0]) && queue[0].item.remoteId !in EntryIds(out)
    ensures queue[0].path !in PathsOf(out)
  {
    var all := out + queue;
    assert queue[0] in all;
    UnderCases(Links(w), root, root);
    var ids := [root] + EntryIds(out) + EntryIds(queue);
    assert ids[1 + |out|] == queue[0].item.remoteId;
    assert forall k :: 0 <= k < |out| ==> ids[k + 1] == EntryIds(out)[k];
    forall e | e in out
      ensures e.path != queue[0].path
    {
      var k :| 0 <= k < |out| && out[k] == e;
      assert EntryBefore(all[k], all[|out|]);
      LexLessIsAsymmetric(Split(e.path), Split(e.path));
    }
  }

  lemma {:induction false} FileHasNoChildren(items: seq<RemoteItem>, x: Id)
    requires UniqueIds(items) && FolderParents(items) && x in ById(items) && ById(items)[x].kind.File?
    ensures AreChildEntries(ById(items), x, [])
  {
    ByIdKeys(items);
    ByIdMember(items, x);
    forall c | c in ById(items)
      ensures ById(items)[c].parentRemoteId != Some(x)
    {
      ByIdMember(items, c);
    }
    assert EntryIds([]) == [];
  }

  /**
   The builder succeeds exactly on one remote tree (or nothing), and then lists it: every item once,
   parent before child, each path the names along its chain, all paths distinct.
   */
  method BuildRemoteExpectedPaths(items: seq<RemoteItem>) returns (r: Result<seq<ExpectedPath>, MaterializationError>)
    ensures r.Ok? <==> items == [] || IsRemoteTree(items)
    ensures r.Ok? ==> IsExpectedList(items, r.value)
    ensures r.Err? ==> BuildIssue(items) == Some(r.error)
  {
    BuildIssueIff(items);
    if items == [] {
      return Ok([]);
    }
    IssuesMean(items);
    var kindById :- CheckRemoteItems(items);
    var grouped :- GroupRemoteItems(items, kindById);
    r := ListSingleTree(items, grouped.0, grouped.1);
  }

  /** The rest of the builder once the items and their parents are checked. */
  method ListSingleTree(items: seq<RemoteItem>, externals: set<Id>, childrenByParent: map<Id, seq<RemoteItem>>)
    returns (r: Result<seq<ExpectedPath>, MaterializationError>)
    requires UniqueIds(items) && UniqueSiblings(items) && FolderParents(items)
             && GroupsChildren(items, childrenByParent)
    requires forall item :: item in items ==> SafeName(item.name)
    requires externals == Externals(items)
    ensures r.Ok? <==> |Externals(items)| == 1 && Complete(ParentsOf(items), RootOf(items))
    ensures r.Ok? ==> ListsTree(items, r.value)
    ensures r.Err? ==> r.error == IncompleteRemoteCatalog
  {
    if |externals| != 1 {
      return Err(IncompleteRemoteCatalog);
    }
    RootIsOnlyExternal(items);
    var root :| root in externals;
    var out := ListTree(items, root, childrenByParent);
    ListingFinished(items, root, out);
    if |out| != |items| {
      return Err(IncompleteRemoteCatalog);
    }
    ListingIsTree(items, out);
    return Ok(out);
  }

  lemma {:induction false} IssuesMean(items: seq<RemoteItem>)
    ensures FirstItemIssue(items, |items|).None? ==>
              UniqueIds(items) && forall item :: item in items ==> Placeable(item) && SafeName(item.name)
    ensures FirstParentIssue(items, |items|).None? ==> UniqueSiblings(items) && FolderParents(items)
  {
    assert items[..|items|] == items;
    ItemIssueIff(items, |items|);
    ParentIssueIff(items, |items|);
  }

  lemma {:induction false} ListingIsTree(items: seq<RemoteItem>, out: seq<ExpectedPath>)
    requires |Externals(items)| == 1 && UniqueIds(items) && |out| == |items|
    requires Listing(ById(items), RootOf(items), out, [])
    ensures ListsTree(items, out)
  {
    assert out + [] == out;
    ListingFinished(items, RootOf(items), out);
    assert forall k :: 0 <= k < |out| ==> out[k] in out;
  }
}
