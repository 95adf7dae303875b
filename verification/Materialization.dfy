/** The materialization planner: how a remote tree and a local tree compare, counted. */
module Materialization {
  import opened Wrappers
  import opened RemoteCatalog
  import opened SubtreeWalk
  import opened Hydration
  import opened Paths
  import opened RemoteTree
  import opened ExpectedPaths
  import opened TreeListing
  import opened ExpectedTree

  datatype LocalKind = LocalFile | LocalDirectory

  datatype LocalEntry = LocalEntry(relativePath: string, kind: LocalKind)

  type Local = map<string, LocalKind>

  function LocalKindFor(kind: RemoteItemKind): LocalKind {
    match kind
    case File => LocalFile
    case Folder => LocalDirectory
  }

  /** The map that inserting the scanned entries one by one builds. */
  function LocalOf(entries: seq<LocalEntry>): Local {
    if entries == [] then map[]
    else
      var last := entries[|entries| - 1];
      LocalOf(entries[..|entries| - 1])[last.relativePath := last.kind]
  }

  ghost predicate DistinctEntries(entries: seq<LocalEntry>) {
    forall i, j :: 0 <= i < j < |entries| ==> entries[i].relativePath != entries[j].relativePath
  }

  ghost predicate SafeEntries(entries: seq<LocalEntry>) {
    forall i :: 0 <= i < |entries| ==> SafePath(entries[i].relativePath)
  }

  lemma {:induction false} LocalHas(entries: seq<LocalEntry>, p: string) returns (i: nat)
    requires p in LocalOf(entries)
    ensures i < |entries| && entries[i].relativePath == p && entries[i].kind == LocalOf(entries)[p]
    decreases |entries|
  {
    var n := |entries| - 1;
    if entries[n].relativePath == p {
      i := n;
    } else {
      i := LocalHas(entries[..n], p);
    }
  }

  lemma {:induction false} LocalAt(entries: seq<LocalEntry>, i: nat)
    requires i < |entries|
    ensures entries[i].relativePath in LocalOf(entries)
    ensures DistinctEntries(entries) ==> LocalOf(entries)[entries[i].relativePath] == entries[i].kind
    decreases |entries|
  {
    var n := |entries| - 1;
    if i < n {
      LocalAt(entries[..n], i);
    }
  }

  lemma {:induction false} LocalSize(entries: seq<LocalEntry>)
    requires DistinctEntries(entries)
    ensures |LocalOf(entries)| == |entries|
    decreases |entries|
  {
    if entries != [] {
      var n := |entries| - 1;
      LocalSize(entries[..n]);
      if entries[n].relativePath in LocalOf(entries[..n]) {
        var i := LocalHas(entries[..n], entries[n].relativePath);
      }
    }
  }

  /** Why an expected path is counted where it is. */
  datatype Comparison = MissingDirectory | MissingFile | MatchingDirectory | ExistingFile | TypeConflict

  function Compare(item: RemoteItem, local: Option<LocalKind>): Comparison {
    match (item.kind, local)
    case (Folder, None) => MissingDirectory
    case (File, None) => MissingFile
    case (Folder, Some(LocalDirectory)) => MatchingDirectory
    case (File, Some(LocalFile)) => ExistingFile
    case _ => TypeConflict
  }

  function Lookup<K, V>(m: map<K, V>, k: K): Option<V> {
    if k in m then Some(m[k]) else None
  }

  /** The expected paths that compare as `c`. */
  function Comparing(e: Expected, local: Local, c: Comparison): set<string> {
    set p | p in e && Compare(e[p], Lookup(local, p)) == c
  }

  /** The expected paths of one remote kind. */
  function OfKind(e: Expected, kind: RemoteItemKind): set<string> {
    set p | p in e && e[p].kind == kind
  }

  /** The five counters of the comparison loop. */
  datatype Tally = Tally(
    missingDirectories: nat, missingFiles: nat, matchingDirectories: nat,
    existingFilesUnverified: nat, typeConflicts: nat)
  {
    function Of(c: Comparison): nat {
      match c
      case MissingDirectory => missingDirectories
      case MissingFile => missingFiles
      case MatchingDirectory => matchingDirectories
      case ExistingFile => existingFilesUnverified
      case TypeConflict => typeConflicts
    }

    function Bump(c: Comparison): (t: Tally)
      ensures forall d: Comparison :: t.Of(d) == Of(d) + if d == c then 1 else 0
    {
      match c
      case MissingDirectory => this.(missingDirectories := missingDirectories + 1)
      case MissingFile => this.(missingFiles := missingFiles + 1)
      case MatchingDirectory => this.(matchingDirectories := matchingDirectories + 1)
      case ExistingFile => this.(existingFilesUnverified := existingFilesUnverified + 1)
      case TypeConflict => this.(typeConflicts := typeConflicts + 1)
    }
  }

  datatype MaterializationPlan = MaterializationPlan(
    remoteItems: nat, remoteDirectories: nat, remoteFiles: nat, localEntries: nat,
    tally: Tally, localOnlyEntries: nat)

  /** The counts are the sizes of the comparison classes and of the local-only rest. */
  ghost predicate Counts(e: Expected, local: Local, plan: MaterializationPlan) {
    && plan.remoteItems == |e| && plan.localEntries == |local|
    && plan.remoteDirectories == |OfKind(e, Folder)| && plan.remoteFiles == |OfKind(e, File)|
    && TallyCounts(e, local, plan.tally)
    && plan.localOnlyEntries == |local.Keys - e.Keys|
  }

  ghost predicate TallyCounts(e: Expected, local: Local, tally: Tally) {
    forall c: Comparison :: tally.Of(c) == |Comparing(e, local, c)|
  }

  lemma {:induction false} DisjointSize<T>(a: set<T>, b: set<T>)
    requires a !! b
    ensures |a + b| == |a| + |b|
  {}

  /** The classes partition the catalog, and the present classes with the local-only rest the local tree. */
  lemma {:induction false} CountsConserve(e: Expected, local: Local, plan: MaterializationPlan)
    requires Counts(e, local, plan)
    ensures var t := plan.tally;
            plan.remoteItems
              == t.missingDirectories + t.missingFiles + t.matchingDirectories + t.existingFilesUnverified
                + t.typeConflicts
    ensures plan.localEntries == plan.tally.matchingDirectories + plan.tally.existingFilesUnverified
                                 + plan.tally.typeConflicts + plan.localOnlyEntries
    ensures plan.remoteItems == plan.remoteDirectories + plan.remoteFiles
  {
    TallyFields(e, local, plan.tally);
    KindsPartition(e);
    ClassesPartition(e, local);
  }

  lemma {:induction false} KindsPartition(e: Expected)
    ensures |e| == |OfKind(e, Folder)| + |OfKind(e, File)|
  {
    DisjointSize(OfKind(e, Folder), OfKind(e, File));
    assert e.Keys == OfKind(e, Folder) + OfKind(e, File);
  }

  lemma {:induction false} ClassesPartition(e: Expected, local: Local)
    ensures |e|
            == |Comparing(e, local, MissingDirectory)| + |Comparing(e, local, MissingFile)|
              + |Comparing(e, local, MatchingDirectory)|
                   + |Comparing(e, local, ExistingFile)| + |Comparing(e, local, TypeConflict)|
    ensures |local| == |Comparing(e, local, MatchingDirectory)| + |Comparing(e, local, ExistingFile)|
                       + |Comparing(e, local, TypeConflict)| + |local.Keys - e.Keys|
  {
    var missing := Comparing(e, local, MissingDirectory) + Comparing(e, local, MissingFile);
    var matching := Comparing(e, local, MatchingDirectory) + Comparing(e, local, ExistingFile);
    var conflicts := Comparing(e, local, TypeConflict);
    DisjointSize(Comparing(e, local, MissingDirectory), Comparing(e, local, MissingFile));
    DisjointSize(Comparing(e, local, MatchingDirectory), Comparing(e, local, ExistingFile));
    PresentSplits(e, local, missing, matching, conflicts);
    DisjointSize(matching, conflicts);
    DisjointSize(missing, matching + conflicts);
    DisjointSize(matching + conflicts, local.Keys - e.Keys);
  }

  lemma {:induction false} TallyFields(e: Expected, local: Local, t: Tally)
    requires TallyCounts(e, local, t)
    ensures t.missingDirectories == |Comparing(e, local, MissingDirectory)|
    ensures t.missingFiles == |Comparing(e, local, MissingFile)|
    ensures t.matchingDirectories == |Comparing(e, local, MatchingDirectory)|
    ensures t.existingFilesUnverified == |Comparing(e, local, ExistingFile)|
    ensures t.typeConflicts == |Comparing(e, local, TypeConflict)|
  {
    assert t.Of(MissingDirectory) == t.missingDirectories && t.Of(MissingFile) == t.missingFiles;
    assert t.Of(MatchingDirectory) == t.matchingDirectories && t.Of(ExistingFile) == t.existingFilesUnverified;
    assert t.Of(TypeConflict) == t.typeConflicts;
  }

  lemma {:induction false} PresentSplits(e: Expected, local: Local, missing: set<string>, matching: set<string>,
                                         conflicts: set<string>)
    requires missing == Comparing(e, local, MissingDirectory) + Comparing(e, local, MissingFile)
    requires matching == Comparing(e, local, MatchingDirectory) + Comparing(e, local, ExistingFile)
    requires conflicts == Comparing(e, local, TypeConflict)
    ensures missing == e.Keys - local.Keys && matching + conflicts == e.Keys * local.Keys
    ensures e.Keys == missing + (matching + conflicts) && local.Keys == (matching + conflicts) + (local.Keys - e.Keys)
    ensures matching !! conflicts
  {
    forall p | p in e
      ensures p in missing <==> p !in local
      ensures p in matching + conflicts <==> p in local
    {}
  }

  ghost predicate MetBefore(entries: seq<LocalEntry>, k: nat)
    requires k < |entries|
  {
    exists i :: 0 <= i < k && entries[i].relativePath == entries[k].relativePath
  }

  /** What is wrong with one scanned entry: an unsafe path is noticed before a repeated one. */
  ghost function LocalIssueAt(entries: seq<LocalEntry>, k: nat): Option<MaterializationError>
    requires k < |entries|
  {
    if !SafePath(entries[k].relativePath) then Some(InvalidLocalRelativePath)
    else if MetBefore(entries, k) then Some(DuplicateLocalPath)
    else None
  }

  ghost function FirstLocalIssue(entries: seq<LocalEntry>, n: nat): Option<MaterializationError>
    requires n <= |entries|
  {
    if n == 0 then None
    else if FirstLocalIssue(entries, n - 1).Some? then FirstLocalIssue(entries, n - 1)
    else LocalIssueAt(entries, n - 1)
  }

  ghost function LocalIssue(entries: seq<LocalEntry>): Option<MaterializationError> {
    FirstLocalIssue(entries, |entries|)
  }

  lemma {:induction false} FirstLocalIssueIff(entries: seq<LocalEntry>, n: nat)
    requires n <= |entries|
    ensures FirstLocalIssue(entries, n).None? <==> forall k :: 0 <= k < n ==> LocalIssueAt(entries, k).None?
  {
    if n > 0 {
      FirstLocalIssueIff(entries, n - 1);
    }
  }

  lemma {:induction false} FirstLocalIssueStays(entries: seq<LocalEntry>, m: nat, n: nat)
    requires m <= n <= |entries| && FirstLocalIssue(entries, m).Some?
    ensures FirstLocalIssue(entries, n) == FirstLocalIssue(entries, m)
    decreases n
  {
    if m < n {
      FirstLocalIssueStays(entries, m, n - 1);
    }
  }

  /** A scan has nothing to complain about exactly when the paths are safe and distinct. */
  lemma {:induction false} LocalIssueIff(entries: seq<LocalEntry>)
    ensures LocalIssue(entries).None? <==> SafeEntries(entries) && DistinctEntries(entries)
  {
    FirstLocalIssueIff(entries, |entries|);
    if LocalIssue(entries).None? {
      forall i, j | 0 <= i < j < |entries|
        ensures entries[i].relativePath != entries[j].relativePath
      {
        assert LocalIssueAt(entries, j).None? && !MetBefore(entries, j);
      }
      forall i | 0 <= i < |entries|
        ensures SafePath(entries[i].relativePath)
      {
        assert LocalIssueAt(entries, i).None?;
      }
    } else if SafeEntries(entries) {
      var k :| 0 <= k < |entries| && LocalIssueAt(entries, k).Some?;
      assert MetBefore(entries, k) && !DistinctEntries(entries);
    }
  }

  /** The scan so far tells whether the next path was met before; the first complaint is the scan's. */
  lemma {:induction false} NextLocalIssue(entries: seq<LocalEntry>, k: nat)
    requires k < |entries| && FirstLocalIssue(entries, k).None?
    ensures MetBefore(entries, k) <==> entries[k].relativePath in LocalOf(entries[..k])
    ensures LocalIssueAt(entries, k).Some? ==> LocalIssue(entries) == LocalIssueAt(entries, k)
    ensures LocalIssueAt(entries, k).None? ==> FirstLocalIssue(entries, k + 1).None?
  {
    if entries[k].relativePath in LocalOf(entries[..k]) {
      var i := LocalHas(entries[..k], entries[k].relativePath);
      assert entries[i].relativePath == entries[k].relativePath;
    }
    forall i | 0 <= i < k
      ensures entries[i].relativePath in LocalOf(entries[..k])
    {
      LocalAt(entries[..k], i);
    }
    if LocalIssueAt(entries, k).Some? {
      FirstLocalIssueStays(entries, k + 1, |entries|);
    }
  }

  method ScanLocal(entries: seq<LocalEntry>) returns (r: Result<Local, MaterializationError>)
    ensures r.Ok? <==> SafeEntries(entries) && DistinctEntries(entries)
    ensures r.Ok? ==> r.value == LocalOf(entries)
    ensures r.Err? ==> LocalIssue(entries) == Some(r.error)
  {
    LocalIssueIff(entries);
    var localByPath: Local := map[];
    for k := 0 to |entries|
      invariant localByPath == LocalOf(entries[..k]) && FirstLocalIssue(entries, k).None?
    {
      var entry := entries[k];
      NextLocalIssue(entries, k);
      if !SafePath(entry.relativePath) {
        return Err(InvalidLocalRelativePath);
      }
      if entry.relativePath in localByPath {
        return Err(DuplicateLocalPath);
      }
      assert entries[..k + 1][..k] == entries[..k];
      localByPath := localByPath[entry.relativePath := entry.kind];
    }
    assert entries[..|entries|] == entries;
    return Ok(localByPath);
  }

  /** The planner's complaint: about the catalog first, then about the local scan. */
  ghost function MaterializationIssue(items: seq<RemoteItem>, entries: seq<LocalEntry>): Option<MaterializationError> {
    if BuildIssue(items).Some? then BuildIssue(items) else LocalIssue(entries)
  }

  method PlanReceiveOnlyMaterialization(items: seq<RemoteItem>, entries: seq<LocalEntry>)
    returns (r: Result<MaterializationPlan, MaterializationError>)
    ensures r.Ok? <==> (items == [] || IsRemoteTree(items)) && SafeEntries(entries) && DistinctEntries(entries)
    ensures r.Ok? ==> exists out :: IsExpectedList(items, out) && Counts(ExpectedOf(out), LocalOf(entries), r.value)
    ensures r.Err? ==> MaterializationIssue(items, entries) == Some(r.error)
  {
    BuildIssueIff(items);
    LocalIssueIff(entries);
    var expectedPaths :- BuildRemoteExpectedPaths(items);
    var localByPath :- ScanLocal(entries);
    ListIsDistinct(items, expectedPaths);
    LocalSize(entries);
    ListSize(items, expectedPaths);
    var plan := CountExpected(expectedPaths, localByPath, |entries|);
    return Ok(plan);
  }

  lemma {:induction false} ListSize(items: seq<RemoteItem>, out: seq<ExpectedPath>)
    requires IsExpectedList(items, out)
    ensures |out| == |items|
  {}

  method CountExpected(expectedPaths: seq<ExpectedPath>, localByPath: Local, localEntries: nat)
    returns (plan: MaterializationPlan)
    requires DistinctPaths(expectedPaths) && localEntries == |localByPath|
    ensures Counts(ExpectedOf(expectedPaths), localByPath, plan)
  {
    var directories, files, tally := 0, 0, Tally(0, 0, 0, 0, 0);
    for k := 0 to |expectedPaths|
      invariant directories == |OfKind(ExpectedOf(expectedPaths[..k]), Folder)|
      invariant files == |OfKind(ExpectedOf(expectedPaths[..k]), File)|
      invariant TallyCounts(ExpectedOf(expectedPaths[..k]), localByPath, tally)
    {
      var item := expectedPaths[k].item;
      NextEntry(expectedPaths, localByPath, k, tally);
      if item.kind.Folder? {
        directories := directories + 1;
      } else {
        files := files + 1;
      }
      tally := tally.Bump(Compare(item, Lookup(localByPath, expectedPaths[k].path)));
    }
    assert expectedPaths[..|expectedPaths|] == expectedPaths;
    ExpectedSize(expectedPaths);
    NamesAreKeys(expectedPaths);
    var localOnly := localByPath.Keys - Names(expectedPaths);
    plan := MaterializationPlan(|expectedPaths|, directories, files, localEntries, tally, |localOnly|);
  }

  function Names(out: seq<ExpectedPath>): set<string> {
    set k | 0 <= k < |out| :: out[k].path
  }

  lemma {:induction false} NamesAreKeys(out: seq<ExpectedPath>)
    requires DistinctPaths(out)
    ensures ExpectedOf(out).Keys == Names(out)
  {
    forall p | p in ExpectedOf(out)
      ensures p in Names(out)
    {
      var i := ExpectedHas(out, p);
    }
    forall k | 0 <= k < |out|
      ensures out[k].path in ExpectedOf(out)
    {
      ExpectedAt(out, k);
    }
  }

  lemma {:induction false} NextEntry(out: seq<ExpectedPath>, local: Local, k: nat, tally: Tally)
    requires k < |out| && DistinctPaths(out) && TallyCounts(ExpectedOf(out[..k]), local, tally)
    ensures TallyCounts(ExpectedOf(out[..k + 1]), local, tally.Bump(Compare(out[k].item, Lookup(local, out[k].path))))
    ensures forall kind: RemoteItemKind :: |OfKind(ExpectedOf(out[..k + 1]), kind)|
                                           == |OfKind(ExpectedOf(out[..k]), kind)|
                                             + if out[k].item.kind == kind then 1 else 0
  {
    NextExpected(out, k);
    TallyGrows(ExpectedOf(out[..k]), local, out[k].path, out[k].item, tally);
    forall kind: RemoteItemKind
      ensures |OfKind(ExpectedOf(out[..k])[out[k].path := out[k].item], kind)|
              == |OfKind(ExpectedOf(out[..k]), kind)| + if out[k].item.kind == kind then 1 else 0
    {
      KindGrows(ExpectedOf(out[..k]), out[k].path, out[k].item, kind);
    }
  }

  lemma {:induction false} TallyGrows(e: Expected, local: Local, p: string, item: RemoteItem, tally: Tally)
    requires p !in e && TallyCounts(e, local, tally)
    ensures TallyCounts(e[p := item], local, tally.Bump(Compare(item, Lookup(local, p))))
  {
    forall c: Comparison
      ensures tally.Bump(Compare(item, Lookup(local, p))).Of(c) == |Comparing(e[p := item], local, c)|
    {
      AddedToClass(e, local, p, item, c);
    }
  }

  lemma {:induction false} KindGrows(e: Expected, p: string, item: RemoteItem, kind: RemoteItemKind)
    requires p !in e
    ensures |OfKind(e[p := item], kind)| == |OfKind(e, kind)| + if item.kind == kind then 1 else 0
  {
    assert OfKind(e[p := item], kind) == OfKind(e, kind) + if item.kind == kind then {p} else {};
  }

  lemma {:induction false} NextExpected(out: seq<ExpectedPath>, k: nat)
    requires k < |out| && DistinctPaths(out)
    ensures ExpectedOf(out[..k + 1]) == ExpectedOf(out[..k])[out[k].path := out[k].item]
    ensures out[k].path !in ExpectedOf(out[..k])
  {
    assert out[..k + 1][..k] == out[..k];
    if out[k].path in ExpectedOf(out[..k]) {
      var i := ExpectedHas(out[..k], out[k].path);
    }
  }

  lemma {:induction false} AddedToClass(e: Expected, local: Local, p: string, item: RemoteItem, c: Comparison)
    requires p !in e
    ensures |Comparing(e[p := item], local, c)| == |Comparing(e, local, c)|
            + if Compare(item, Lookup(local, p)) == c then 1 else 0
  {
    assert Comparing(e[p := item], local, c) == Comparing(e, local, c)
           + if Compare(item, Lookup(local, p)) == c then {p} else {};
  }
}
