/** The expected tree as a map from path to item: what every successful path list gives the planners. */
module ExpectedTree {
  import opened Wrappers
  import opened RemoteCatalog
  import opened Forest
  import opened SubtreeWalk
  import opened Hydration
  import opened Sorting
  import opened Paths
  import opened RemoteTree

  type Expected = map<string, RemoteItem>

  /** The map that inserting the listed entries one by one builds. */
  function ExpectedOf(out: seq<ExpectedPath>): Expected {
    if out == [] then map[]
    else
      var last := out[|out| - 1];
      ExpectedOf(out[..|out| - 1])[last.path := last.item]
  }

  ghost predicate DistinctPaths(out: seq<ExpectedPath>) {
    forall i, j :: 0 <= i < j < |out| ==> out[i].path != out[j].path
  }

  lemma {:induction false} ExpectedAt(out: seq<ExpectedPath>, i: nat)
    requires DistinctPaths(out) && i < |out|
    ensures out[i].path in ExpectedOf(out) && ExpectedOf(out)[out[i].path] == out[i].item
    decreases |out|
  {
    var n := |out| - 1;
    if i < n {
      ExpectedAt(out[..n], i);
    }
  }

  lemma {:induction false} ExpectedHas(out: seq<ExpectedPath>, p: string) returns (i: nat)
    requires p in ExpectedOf(out)
    ensures i < |out| && out[i].path == p && out[i].item == ExpectedOf(out)[p]
    decreases |out|
  {
    var n := |out| - 1;
    if out[n].path == p {
      i := n;
    } else {
      i := ExpectedHas(out[..n], p);
    }
  }

  lemma {:induction false} ExpectedSize(out: seq<ExpectedPath>)
    requires DistinctPaths(out)
    ensures |ExpectedOf(out)| == |out|
    decreases |out|
  {
    if out != [] {
      var n := |out| - 1;
      ExpectedSize(out[..n]);
      if out[n].path in ExpectedOf(out[..n]) {
        var i := ExpectedHas(out[..n], out[n].path);
      }
    }
  }

  /** The path without its last component. */
  function Parent(path: string): string
    requires Depth(path) > 1
  {
    Join(Split(path)[..Depth(path) - 1])
  }

  lemma {:induction false} SplitJoin(cs: seq<string>)
    requires cs != [] && forall c :: c in cs ==> '/' !in c
    ensures Split(Join(cs)) == cs
    decreases |cs|
  {
    SplitOfPlain(cs[0]);
    if |cs| > 1 {
      SplitJoin(cs[1..]);
      SplitConcat(cs[0], Join(cs[1..]));
      assert [cs[0]] + cs[1..] == cs;
    }
  }

  lemma {:induction false} ParentSplit(path: string)
    requires Depth(path) > 1
    ensures Split(Parent(path)) == Split(path)[..Depth(path) - 1]
    ensures IsBelow(path, Parent(path)) && Depth(Parent(path)) == Depth(path) - 1
  {
    SplitEnds(path);
    SplitJoin(Split(path)[..Depth(path) - 1]);
    BelowIffProperPrefix(path, Parent(path));
  }

  /** A folder above a path is its parent or lies above its parent. */
  lemma {:induction false} BelowMeansBelowParent(path: string, folder: string)
    requires IsBelow(path, folder)
    ensures Depth(path) > 1 && (Parent(path) == folder || IsBelow(Parent(path), folder))
  {
    BelowIffProperPrefix(path, folder);
    ParentSplit(path);
    BelowIffProperPrefix(Parent(path), folder);
    if Depth(folder) == Depth(path) - 1 {
      assert Split(folder) == Split(Parent(path));
      SplitIsInjective(folder, Parent(path));
    }
  }

  /** Distinct ids, and every parent path is expected as a folder. */
  ghost predicate IsExpectedTree(e: Expected) {
    && (forall p, q :: p in e && q in e && e[p].remoteId == e[q].remoteId ==> p == q)
    && (forall p {:trigger HasFolderAbove(e, p)} :: p in e ==> HasFolderAbove(e, p))
  }

  /** A nested path has an expected folder as its parent. */
  ghost predicate HasFolderAbove(e: Expected, p: string) {
    Depth(p) > 1 ==> Parent(p) in e && e[Parent(p)].kind.Folder?
  }

  /** Every path above an expected path is expected, as a folder. */
  lemma {:induction false} AncestorsAreExpected(e: Expected, p: string, folder: string)
    requires IsExpectedTree(e) && p in e && IsBelow(p, folder)
    ensures folder in e && e[folder].kind.Folder?
    decreases Depth(p)
  {
    BelowMeansBelowParent(p, folder);
    assert HasFolderAbove(e, p);
    if Parent(p) != folder {
      ParentSplit(p);
      AncestorsAreExpected(e, Parent(p), folder);
    }
  }

  lemma {:induction false} PathsAreDistinct(out: seq<ExpectedPath>)
    requires StrictlySorted(EntryBefore, out)
    ensures DistinctPaths(out)
  {
    forall i, j | 0 <= i < j < |out|
      ensures out[i].path != out[j].path
    {
      assert EntryBefore(out[i], out[j]);
      LexLessIsAsymmetric(Split(out[i].path), Split(out[j].path));
    }
  }

  ghost predicate DistinctIds(out: seq<ExpectedPath>) {
    forall i, j :: 0 <= i < j < |out| ==> out[i].item.remoteId != out[j].item.remoteId
  }

  /** Each item is listed once, since each has one path. */
  lemma {:induction false} ListedOnce(w: World, root: Id, out: seq<ExpectedPath>)
    requires root !in w && ListsWorld(w, root, out)
    ensures DistinctIds(out)
  {
    PathsAreDistinct(out);
    forall i, j | 0 <= i < j < |out|
      ensures out[i].item.remoteId != out[j].item.remoteId
    {
      assert IsEntry(w, root, out[i]) && IsEntry(w, root, out[j]);
      if out[i].item.remoteId == out[j].item.remoteId {
        SamePathSameItem(w, root, out[i].item.remoteId, out[i].path, out[j].path);
      }
    }
  }

  /** A successful list repeats no path and no id. */
  lemma {:induction false} ListIsDistinct(items: seq<RemoteItem>, out: seq<ExpectedPath>)
    requires IsExpectedList(items, out)
    ensures DistinctPaths(out) && DistinctIds(out)
  {
    if items != [] {
      ByIdKeys(items);
      RootIsOnlyExternal(items);
      PathsAreDistinct(out);
      ListedOnce(ById(items), RootOf(items), out);
    }
  }

  lemma {:induction false} DeepEntryHasParent(w: World, root: Id, e: ExpectedPath)
    requires root !in w && IsEntry(w, root, e) && Depth(e.path) > 1
    ensures e.item.parentRemoteId.Some? && e.item.parentRemoteId.value in w
  {
    var n: nat :| n > 0 && Reaches(Links(w), e.item.remoteId, root, n)
      && Split(e.path) == Components(w, root, e.item.remoteId, n);
    assert Reaches(Links(w), e.item.parentRemoteId.value, root, n - 1);
  }

  lemma {:induction false} ParentEntry(w: World, root: Id, e: ExpectedPath, f: ExpectedPath)
    requires root !in w && IsEntry(w, root, e) && IsEntry(w, root, f) && Depth(e.path) > 1
    requires e.item.parentRemoteId == Some(f.item.remoteId)
    ensures f.path == Parent(e.path) && !EntryBefore(e, f) && e != f
  {
    ChildHasPath(w, root, e.item.remoteId, e.path, f.path);
    ParentSplit(e.path);
    SplitIsInjective(f.path, Parent(e.path));
  }

  /** A world in which only folders are parents. */
  ghost predicate OnlyFolderParents(w: World) {
    forall x :: x in w && w[x].parentRemoteId.Some? && w[x].parentRemoteId.value in w ==>
        w[w[x].parentRemoteId.value].kind.Folder?
  }

  lemma {:induction false} ListedParentsAreFolders(items: seq<RemoteItem>)
    requires FolderParents(items)
    ensures OnlyFolderParents(ById(items))
  {
    var w := ById(items);
    forall x | x in w && w[x].parentRemoteId.Some? && w[x].parentRemoteId.value in w
      ensures w[w[x].parentRemoteId.value].kind.Folder?
    {
      ByIdMember(items, x);
      ByIdMember(items, w[x].parentRemoteId.value);
    }
  }

  /** The parent of a listed item is listed before it, as a folder whose path is the parent path. */
  lemma {:induction false} ParentListedBefore(w: World, root: Id, out: seq<ExpectedPath>, i: nat) returns (j: nat)
    requires root !in w && OnlyFolderParents(w) && ListsWorld(w, root, out) && i < |out| && Depth(out[i].path) > 1
    ensures j < i && out[j].path == Parent(out[i].path) && out[j].item.kind.Folder?
    ensures out[i].item.parentRemoteId == Some(out[j].item.remoteId)
  {
    assert IsEntry(w, root, out[i]);
    DeepEntryHasParent(w, root, out[i]);
    var p := out[i].item.parentRemoteId.value;
    assert IsListed(out, p);
    j :| 0 <= j < |out| && out[j].item.remoteId == p;
    assert IsEntry(w, root, out[j]);
    ParentEntry(w, root, out[i], out[j]);
  }

  /** The entry at `i` lies at the top or directly below an earlier folder. */
  ghost predicate BelowEarlier(out: seq<ExpectedPath>, i: nat)
    requires i < |out|
  {
    Depth(out[i].path) > 1
    ==> exists j :: 0 <= j < |out| && out[j].path == Parent(out[i].path) && out[j].item.kind.Folder?
  }

  lemma {:induction false} EntriesGiveTree(out: seq<ExpectedPath>)
    requires DistinctPaths(out) && DistinctIds(out) && forall i :: 0 <= i < |out| ==> BelowEarlier(out, i)
    ensures IsExpectedTree(ExpectedOf(out))
  {
    var e := ExpectedOf(out);
    forall p, q | p in e && q in e && e[p].remoteId == e[q].remoteId
      ensures p == q
    {
      var i := ExpectedHas(out, p);
      var j := ExpectedHas(out, q);
    }
    forall p | p in e && Depth(p) > 1
      ensures Parent(p) in e && e[Parent(p)].kind.Folder?
    {
      var i := ExpectedHas(out, p);
      assert BelowEarlier(out, i);
      var j :| 0 <= j < |out| && out[j].path == Parent(p) && out[j].item.kind.Folder?;
      ExpectedAt(out, j);
    }
  }

  lemma {:induction false} ListGivesTree(items: seq<RemoteItem>, out: seq<ExpectedPath>)
    requires IsExpectedList(items, out)
    ensures IsExpectedTree(ExpectedOf(out))
  {
    if items != [] {
      ByIdKeys(items);
      RootIsOnlyExternal(items);
      ListedParentsAreFolders(items);
      WorldGivesTree(ById(items), RootOf(items), out);
    }
  }

  lemma {:induction false} WorldGivesTree(w: World, root: Id, out: seq<ExpectedPath>)
    requires root !in w && OnlyFolderParents(w) && ListsWorld(w, root, out)
    ensures IsExpectedTree(ExpectedOf(out))
  {
    PathsAreDistinct(out);
    ListedOnce(w, root, out);
    forall i | 0 <= i < |out|
      ensures BelowEarlier(out, i)
    {
      if Depth(out[i].path) > 1 {
        var j := ParentListedBefore(w, root, out, i);
      }
    }
    EntriesGiveTree(out);
  }

  /** Listing the same items in another order is the same tree. */
  lemma {:induction false} SameItemsSameTree(a: seq<RemoteItem>, b: seq<RemoteItem>)
    requires multiset(a) == multiset(b) && UniqueIds(a)
    ensures UniqueIds(b) && ById(a) == ById(b) && Externals(a) == Externals(b)
  {
    SameMembers(a, b);
    DistinctStays(a, b);
    ByIdKeys(a);
    ByIdKeys(b);
    assert Ids(a) <= Ids(b) && Ids(b) <= Ids(a) by {
      assert forall i :: 0 <= i < |a| ==> a[i] in b;
      assert forall i :: 0 <= i < |b| ==> b[i] in a;
    }
    assert ParentsNamed(a) <= ParentsNamed(b) && ParentsNamed(b) <= ParentsNamed(a) by {
      assert forall i :: 0 <= i < |a| ==> a[i] in b;
      assert forall i :: 0 <= i < |b| ==> b[i] in a;
    }
    forall x | x in ById(a)
      ensures ById(a)[x] == ById(b)[x]
    {
      ByIdMember(a, x);
      ByIdAt(b, ById(a)[x]);
    }
  }

  lemma {:induction false} DistinctStays(a: seq<RemoteItem>, b: seq<RemoteItem>)
    requires multiset(a) == multiset(b) && UniqueIds(a)
    ensures UniqueIds(b)
  {
    SameMembers(a, b);
    forall i, j | 0 <= i < j < |b|
      ensures b[i].remoteId != b[j].remoteId
    {
      if b[i].remoteId == b[j].remoteId {
        assert b[i] in a && b[j] in a;
        var m :| 0 <= m < |a| && a[m] == b[i];
        var n :| 0 <= n < |a| && a[n] == b[j];
        assert m == n;
        OccursTwice(b, i, j);
        OccursOnce(a, m);
      }
    }
  }

  lemma {:induction false} OccursTwice(s: seq<RemoteItem>, i: nat, j: nat)
    requires i < j < |s| && s[i] == s[j]
    ensures multiset(s)[s[i]] >= 2
  {
    assert s == s[..j] + s[j..];
    assert s[..j][i] == s[i] && s[j..][0] == s[i];
    assert multiset(s) == multiset(s[..j]) + multiset(s[j..]);
  }

  lemma {:induction false} OccursOnce(s: seq<RemoteItem>, m: nat)
    requires m < |s| && UniqueIds(s)
    ensures multiset(s)[s[m]] == 1
  {
    assert s == s[..m] + [s[m]] + s[m + 1..];
    assert s[m] !in s[..m];
    assert s[m] !in s[m + 1..];
    assert multiset(s) == multiset(s[..m]) + multiset{s[m]} + multiset(s[m + 1..]);
  }

  /** The path list is canonical: permuting the catalog listing does not change it. */
  lemma {:induction false} ListIsCanonical(a: seq<RemoteItem>, b: seq<RemoteItem>, out: seq<ExpectedPath>,
                                           out': seq<ExpectedPath>)
    requires multiset(a) == multiset(b) && IsExpectedList(a, out) && IsExpectedList(b, out')
    ensures out == out'
  {
    assert a == [] <==> b == [] by { assert |multiset(a)| == |a| && |multiset(b)| == |b|; }
    if a != [] {
      SameItemsSameTree(a, b);
      RootIsOnlyExternal(a);
      RootIsOnlyExternal(b);
      ByIdKeys(a);
      WorldListIsUnique(ById(a), RootOf(a), out, out');
    }
  }

  /** A world has one canonical list. */
  lemma {:induction false} WorldListIsUnique(w: World, root: Id, out: seq<ExpectedPath>, out': seq<ExpectedPath>)
    requires root !in w && ListsWorld(w, root, out) && ListsWorld(w, root, out')
    ensures out == out'
  {
    EntryOrder();
    forall e
      ensures e in out <==> e in out'
    {
      if e in out { EntryListedToo(w, root, out', e); }
      if e in out' { EntryListedToo(w, root, out, e); }
    }
    SortedIsUnique(EntryBefore, out, out');
  }

  lemma {:induction false} EntryListedToo(w: World, root: Id, out: seq<ExpectedPath>, e: ExpectedPath)
    requires root !in w && ListsWorld(w, root, out) && IsEntry(w, root, e)
    ensures e in out
  {
    var x := e.item.remoteId;
    assert IsListed(out, x);
    var j :| 0 <= j < |out| && out[j].item.remoteId == x;
    assert IsEntry(w, root, out[j]);
    SamePathSameItem(w, root, x, e.path, out[j].path);
  }
}
