/** What it means for a catalog listing to be one tree of safe names, and the paths of its items. */
module RemoteTree {
  import opened Wrappers
  import opened RemoteCatalog
  import opened Forest
  import opened SubtreeWalk
  import opened Hydration
  import opened Sorting
  import opened Paths

  /** One expected path: the source's (path, kind, id, size) tuple, with the last three read off the item. */
  datatype ExpectedPath = ExpectedPath(path: string, item: RemoteItem)

  datatype MaterializationError =
    | InvalidRemoteItem
    | UnsafeRemoteName
    | DuplicateRemoteId
    | DuplicateSiblingName
    | IncompleteRemoteCatalog
    | InvalidRemoteParentKind
    | RemotePathCollision
    | InvalidLocalRelativePath
    | DuplicateLocalPath

  function ById(items: seq<RemoteItem>): World {
    if items == [] then map[]
    else
      var last := items[|items| - 1];
      ById(items[..|items| - 1])[last.remoteId := last]
  }

  lemma {:induction false} ByIdKeys(items: seq<RemoteItem>)
    ensures ById(items).Keys == Ids(items)
    ensures Links(ById(items)) == ParentsOf(items)
    decreases |items|
  {
    if items != [] {
      var n := |items| - 1;
      ByIdKeys(items[..n]);
      assert Ids(items) == Ids(items[..n]) + {items[n].remoteId};
    }
  }

  lemma {:induction false} ByIdMember(items: seq<RemoteItem>, x: Id)
    requires x in ById(items)
    ensures ById(items)[x] in items && ById(items)[x].remoteId == x
    decreases |items|
  {
    var n := |items| - 1;
    if x != items[n].remoteId {
      ByIdMember(items[..n], x);
    }
  }

  lemma {:induction false} ByIdAt(items: seq<RemoteItem>, item: RemoteItem)
    requires UniqueIds(items) && item in items
    ensures item.remoteId in ById(items) && ById(items)[item.remoteId] == item
  {
    ByIdKeys(items);
    ByIdMember(items, item.remoteId);
  }

  lemma {:induction false} ByIdSize(items: seq<RemoteItem>)
    requires UniqueIds(items)
    ensures |ById(items)| == |items|
    decreases |items|
  {
    if items != [] {
      var n := |items| - 1;
      ByIdSize(items[..n]);
      ByIdKeys(items[..n]);
    }
  }

  predicate Placeable(item: RemoteItem) {
    !Blank(item.remoteId) && item.parentRemoteId.Some? && !item.trashed
  }

  /** The parents that are not themselves listed. */
  function Externals(items: seq<RemoteItem>): set<Id> {
    ParentsNamed(items) - Ids(items)
  }

  function ParentsNamed(items: seq<RemoteItem>): set<Id> {
    set i | 0 <= i < |items| && items[i].parentRemoteId.Some? :: items[i].parentRemoteId.value
  }

  ghost function RootOf(items: seq<RemoteItem>): Id
    requires |Externals(items)| == 1
  {
    var r :| r in Externals(items);
    r
  }

  ghost predicate UniqueSiblings(items: seq<RemoteItem>) {
    forall i, j :: 0 <= i < j < |items| ==>
      items[i].parentRemoteId != items[j].parentRemoteId || items[i].name != items[j].name
  }

  predicate SameSpot(a: RemoteItem, b: RemoteItem) {
    a.parentRemoteId == b.parentRemoteId && a.name == b.name
  }

  /** No listed file is named as a parent. */
  ghost predicate FolderParents(items: seq<RemoteItem>) {
    forall i, j :: 0 <= i < |items| && 0 <= j < |items| && items[j].parentRemoteId == Some(items[i].remoteId)
      ==> items[i].kind.Folder?
  }

  /** The items form one finite tree of safe, distinct names under a single parent that is not listed. */
  ghost predicate IsRemoteTree(items: seq<RemoteItem>) {
    && (forall i :: 0 <= i < |items| ==>
          !Blank(items[i].remoteId) && items[i].parentRemoteId.Some? && !items[i].trashed && SafeName(items[i].name))
    && UniqueIds(items) && UniqueSiblings(items) && FolderParents(items)
    && |Externals(items)| == 1
    && Complete(ParentsOf(items), RootOf(items))
  }

  /** The names along the chain of `n` parents from `x` up to the root, root end first. */
  ghost function Components(w: World, root: Id, x: Id, n: nat): (cs: seq<string>)
    requires Reaches(Links(w), x, root, n)
    ensures |cs| == n
    decreases n
  {
    if n == 0 then [] else Components(w, root, w[x].parentRemoteId.value, n - 1) + [w[x].name]
  }

  ghost predicate HasPath(w: World, root: Id, x: Id, path: string) {
    exists n: nat :: n > 0 && Reaches(Links(w), x, root, n) && Split(path) == Components(w, root, x, n)
  }

  ghost predicate IsEntry(w: World, root: Id, e: ExpectedPath) {
    && e.item.remoteId in w && w[e.item.remoteId] == e.item
    && HasPath(w, root, e.item.remoteId, e.path) && SafePath(e.path)
  }

  /** Shallower first, then by components. */
  predicate EntryBefore(a: ExpectedPath, b: ExpectedPath) {
    Depth(a.path) < Depth(b.path)
    || (Depth(a.path) == Depth(b.path) && LexLess(Split(a.path), Split(b.path)))
  }

  ghost predicate IsListed(out: seq<ExpectedPath>, x: Id) {
    exists k :: 0 <= k < |out| && out[k].item.remoteId == x
  }

  /** `out` lists all of `w`, with the paths along the chains to `root`, in canonical order. */
  ghost predicate ListsWorld(w: World, root: Id, out: seq<ExpectedPath>) {
    && (forall k :: 0 <= k < |out| ==> IsEntry(w, root, out[k]))
    && (forall x {:trigger IsListed(out, x)} :: x in w ==> IsListed(out, x))
    && StrictlySorted(EntryBefore, out)
  }

  /** `out` lists every item once. */
  ghost predicate ListsTree(items: seq<RemoteItem>, out: seq<ExpectedPath>)
    requires |Externals(items)| == 1
  {
    |out| == |items| && ListsWorld(ById(items), RootOf(items), out)
  }

  ghost predicate IsExpectedList(items: seq<RemoteItem>, out: seq<ExpectedPath>) {
    if items == [] then out == [] else IsRemoteTree(items) && ListsTree(items, out)
  }

  lemma {:induction false} EntryOrder()
    ensures IsStrictOrder(EntryBefore)
  {
    forall x: ExpectedPath, y: ExpectedPath
      ensures !(EntryBefore(x, y) && EntryBefore(y, x))
    {
      LexLessIsAsymmetric(Split(x.path), Split(y.path));
    }
    forall x: ExpectedPath, y: ExpectedPath, z: ExpectedPath
      ensures EntryBefore(x, y) && EntryBefore(y, z) ==> EntryBefore(x, z)
    {
      LexLessIsTransitive(Split(x.path), Split(y.path), Split(z.path));
    }
  }

  /** A chain reaches a root that is not listed after one definite number of steps. */
  lemma {:induction false} DepthIsUnique(w: World, root: Id, x: Id, m: nat, n: nat)
    requires root !in w && Reaches(Links(w), x, root, m) && Reaches(Links(w), x, root, n)
    ensures m == n
  {
    if m < n {
      ReachesSplit(Links(w), x, root, root, m, n);
    } else if n < m {
      ReachesSplit(Links(w), x, root, root, n, m);
    }
  }

  /** The path of a child is the path of its parent and its own name. */
  lemma {:induction false} ChildHasPath(w: World, root: Id, x: Id, path: string, folder: string)
    requires root !in w && x in w && w[x].parentRemoteId.Some? && HasPath(w, root, w[x].parentRemoteId.value, folder)
    ensures HasPath(w, root, x, path) <==> Split(path) == Split(folder) + [w[x].name]
  {
    var p := w[x].parentRemoteId.value;
    var n: nat :| n > 0 && Reaches(Links(w), p, root, n) && Split(folder) == Components(w, root, p, n);
    assert Reaches(Links(w), x, root, n + 1);
    assert Components(w, root, x, n + 1) == Split(folder) + [w[x].name];
    if HasPath(w, root, x, path) {
      var m: nat :| m > 0 && Reaches(Links(w), x, root, m) && Split(path) == Components(w, root, x, m);
      DepthIsUnique(w, root, x, m, n + 1);
    }
  }

  lemma {:induction false} TopHasPath(w: World, root: Id, x: Id, path: string)
    requires root !in w && x in w && w[x].parentRemoteId == Some(root)
    ensures HasPath(w, root, x, path) <==> Split(path) == [w[x].name]
  {
    assert Reaches(Links(w), root, root, 0);
    assert Reaches(Links(w), x, root, 1);
    assert Components(w, root, x, 1) == [] + [w[x].name];
    if HasPath(w, root, x, path) {
      var m: nat :| m > 0 && Reaches(Links(w), x, root, m) && Split(path) == Components(w, root, x, m);
      DepthIsUnique(w, root, x, m, 1);
    }
  }

  lemma {:induction false} SamePathSameItem(w: World, root: Id, x: Id, a: string, b: string)
    requires root !in w && HasPath(w, root, x, a) && HasPath(w, root, x, b)
    ensures a == b
  {
    var m: nat :| m > 0 && Reaches(Links(w), x, root, m) && Split(a) == Components(w, root, x, m);
    var n: nat :| n > 0 && Reaches(Links(w), x, root, n) && Split(b) == Components(w, root, x, n);
    DepthIsUnique(w, root, x, m, n);
    SplitIsInjective(a, b);
  }

  /** The single outside parent is the only element of its set. */
  lemma {:induction false} RootIsOnlyExternal(items: seq<RemoteItem>)
    requires |Externals(items)| == 1
    ensures Externals(items) == {RootOf(items)} && RootOf(items) !in Ids(items)
  {
    var r := RootOf(items);
    assert r in Externals(items);
    SubsetSize({r}, Externals(items));
  }
}
