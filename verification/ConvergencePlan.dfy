/** The whole planner, its answer on every input, and how it agrees with the materialization planner. */
module ConvergencePlan {
  import opened Wrappers
  import opened RemoteCatalog
  import opened SubtreeWalk
  import opened Hydration
  import opened Sorting
  import opened Paths
  import opened RemoteTree
  import opened ExpectedPaths
  import opened TreeListing
  import opened ExpectedTree
  import opened Materialization
  import opened ConvergenceDecision
  import opened ConvergencePlanner

  /** How an expected path that needs nothing is counted. */
  datatype Settled = OwnedFile | OwnedDirectory | UnownedDirectory

  function SettledAs(item: RemoteItem, p: string, local: Local, receipts: Receipts): Option<Settled> {
    if DecideExpected(item, p, local, receipts).Some? then None
    else if item.kind.File? then Some(OwnedFile)
    else if item.remoteId in receipts.byId then Some(OwnedDirectory)
    else Some(UnownedDirectory)
  }

  function SettledPaths(e: Expected, local: Local, receipts: Receipts, kind: Settled): set<string> {
    set p | p in e && SettledAs(e[p], p, local, receipts) == Some(kind)
  }

  datatype Plan = Plan(
    actions: seq<Action>, remoteItems: nat, localEntries: nat, receiptCount: nat, kinds: KindTally,
    currentOwnedFiles: nat, currentOwnedDirectories: nat, unownedMatchingDirectories: nat)
  {
    predicate IsBlocked() {
      kinds.blockedActions > 0
    }
  }

  /** The plan lists every decision in canonical order and counts them. */
  ghost predicate IsPlan(plan: Plan, e: Expected, local: Local, receipts: Receipts) {
    PlansDrafts(plan, Decisions(e, local, receipts), e, local, receipts)
  }

  ghost predicate PlansDrafts(plan: Plan, drafts: Drafts, e: Expected, local: Local, receipts: Receipts) {
    && ListsDrafts(plan.actions, drafts)
    && plan.remoteItems == |e| && plan.localEntries == |local|
    && (forall kind: ActionKind :: plan.kinds.Of(kind) == |PathsOfKind(drafts, kind)|)
    && plan.currentOwnedFiles == |SettledPaths(e, local, receipts, OwnedFile)|
    && plan.currentOwnedDirectories == |SettledPaths(e, local, receipts, OwnedDirectory)|
    && plan.unownedMatchingDirectories == |SettledPaths(e, local, receipts, UnownedDirectory)|
  }

  /** The blocked count that callers look at is zero exactly when no decision is blocked. */
  lemma {:induction false} BlockedIff(plan: Plan, e: Expected, local: Local, receipts: Receipts)
    requires IsPlan(plan, e, local, receipts)
    ensures plan.IsBlocked() <==> !Unblocked(Decisions(e, local, receipts))
  {
    var drafts := Decisions(e, local, receipts);
    assert plan.kinds.Of(Blocked) == |PathsOfKind(drafts, Blocked)|;
    if p :| p in drafts && drafts[p].kind.Blocked? {
      assert p in PathsOfKind(drafts, Blocked);
    }
    if PathsOfKind(drafts, Blocked) != {} {
      var p :| p in PathsOfKind(drafts, Blocked);
    }
  }

  /**
   Data safety, blocked or not: every action that the plan returns and that would delete or replace something
   is of something the receipts own, and of nothing else.
   */
  lemma {:induction false} DestructiveActionsAreOwned(plan: Plan, e: Expected, local: Local, receipts: Receipts,
                                                      a: Action)
    requires IsPlan(plan, e, local, receipts) && receipts.Consistent() && a in plan.actions
    ensures IsOwned(a.kind, a.remoteId, a.relativePath, e, local, receipts)
  {
    DecidedIsOwned(a.relativePath, e, local, receipts);
  }

  /** The directories that the plan deletes are pairwise unrelated: none lies below another. */
  lemma {:induction false} DeletedDirectoriesAreUnrelated(plan: Plan, e: Expected, local: Local, receipts: Receipts,
                                                          a: Action, b: Action)
    requires IsPlan(plan, e, local, receipts) && receipts.Consistent()
    requires a in plan.actions && a.kind.DeleteOwnedEmptyDirectory?
    requires b in plan.actions && b.kind.DeleteOwnedEmptyDirectory?
    ensures !IsBelow(a.relativePath, b.relativePath)
  {
    DestructiveActionsAreOwned(plan, e, local, receipts, a);
    DestructiveActionsAreOwned(plan, e, local, receipts, b);
  }

  ghost predicate Plannable(items: seq<RemoteItem>, entries: seq<LocalEntry>, receipts: seq<Receipt>) {
    && (items == [] || IsRemoteTree(items)) && SafeEntries(entries) && DistinctEntries(entries)
    && UniqueReceipts(receipts)
  }

  /** The planner's complaint about its input, in the order in which it looks. */
  ghost function PlanIssue(items: seq<RemoteItem>, entries: seq<LocalEntry>, receipts: seq<Receipt>, maxActions: nat)
    : Option<ConvergenceError>
  {
    if maxActions == 0 then Some(InvalidMaxActions)
    else if MaterializationIssue(items, entries).Some? then
      Some(MaterializationFailed(MaterializationIssue(items, entries).value))
    else ReceiptIssue(receipts)
  }

  /** There is no complaint exactly when the limit is positive and all three inputs are in order. */
  lemma {:induction false} PlanIssueIff(items: seq<RemoteItem>, entries: seq<LocalEntry>, receipts: seq<Receipt>,
                                        maxActions: nat)
    ensures PlanIssue(items, entries, receipts, maxActions).None?
            <==> maxActions > 0 && Plannable(items, entries, receipts)
  {
    BuildIssueIff(items);
    LocalIssueIff(entries);
    ReceiptIssueIff(receipts);
  }

  /** The answer on plannable input: the limit is exceeded exactly when more paths than that are decided. */
  ghost predicate Answers(out: seq<ExpectedPath>, entries: seq<LocalEntry>, receipts: seq<Receipt>, maxActions: nat,
                          r: Result<Plan, ConvergenceError>)
  {
    var e, local, lookups := ExpectedOf(out), LocalOf(entries), ReceiptsOf(receipts);
    if |Decisions(e, local, lookups)| > maxActions then r == Err(ActionLimitExceeded)
    else r.Ok? && IsPlan(r.value, e, local, lookups) && r.value.receiptCount == |receipts|
  }

  method PlanReceiveOnlyConvergence(items: seq<RemoteItem>, entries: seq<LocalEntry>, receipts: seq<Receipt>,
                                    maxActions: nat)
    returns (r: Result<Plan, ConvergenceError>)
    ensures PlanIssue(items, entries, receipts, maxActions).Some?
            ==> r == Err(PlanIssue(items, entries, receipts, maxActions).value)
    ensures PlanIssue(items, entries, receipts, maxActions).None? ==>
              exists out :: IsExpectedList(items, out) && Answers(out, entries, receipts, maxActions, r)
  {
    PlanIssueIff(items, entries, receipts, maxActions);
    if maxActions == 0 {
      return Err(InvalidMaxActions);
    }
    var materialization := PlanReceiveOnlyMaterialization(items, entries);
    if materialization.Err? {
      return Err(MaterializationFailed(materialization.error));
    }
    var built := BuildRemoteExpectedPaths(items);
    var scanned := ScanLocal(entries);
    BuildIssueIff(items);
    LocalIssueIff(entries);
    ReceiptIssueIff(receipts);
    var lookups :- ScanReceipts(receipts);
    ListIsDistinct(items, built.value);
    r := PlanFrom(built.value, entries, scanned.value, receipts, lookups, maxActions);
  }

  /** The planner once its inputs are validated and indexed. */
  method PlanFrom(out: seq<ExpectedPath>, entries: seq<LocalEntry>, local: Local,
                  receipts: seq<Receipt>, lookups: Receipts, maxActions: nat)
    returns (r: Result<Plan, ConvergenceError>)
    requires maxActions > 0 && DistinctPaths(out) && DistinctIds(out) && DistinctEntries(entries)
             && UniqueReceipts(receipts)
    requires local == LocalOf(entries) && lookups == ReceiptsOf(receipts)
    ensures Answers(out, entries, receipts, maxActions, r)
  {
    ExpectedSize(out);
    LocalSize(entries);
    var drafted := DraftAll(out, entries, local, receipts, lookups, maxActions);
    if drafted.Err? {
      return Err(drafted.error);
    }
    var plan := Assemble(drafted.value, out, local, lookups, |entries|, |receipts|);
    return Ok(plan);
  }

  /** Lists the drafts and counts them. */
  method Assemble(drafts: Drafts, out: seq<ExpectedPath>, local: Local, lookups: Receipts, localEntries: nat,
                  receiptCount: nat)
    returns (plan: Plan)
    requires DistinctPaths(out) && |out| == |ExpectedOf(out)| && localEntries == |local|
    requires forall p :: p in drafts ==> drafts[p].relativePath == p
    ensures PlansDrafts(plan, drafts, ExpectedOf(out), local, lookups) && plan.receiptCount == receiptCount
  {
    var actions := ListActions(drafts);
    var kinds := CountKinds(actions, drafts);
    var ownedFiles := CountSettled(out, local, lookups, OwnedFile);
    var ownedDirectories := CountSettled(out, local, lookups, OwnedDirectory);
    var unowned := CountSettled(out, local, lookups, UnownedDirectory);
    plan := Plan(actions, |out|, localEntries, receiptCount, kinds, ownedFiles, ownedDirectories, unowned);
  }

  /** The three passes: together they draft exactly the decisions, or exceed the limit. */
  method DraftAll(out: seq<ExpectedPath>, entries: seq<LocalEntry>, local: Local,
                  receipts: seq<Receipt>, lookups: Receipts, maxActions: nat)
    returns (r: Result<Drafts, ConvergenceError>)
    requires DistinctPaths(out) && DistinctIds(out) && DistinctEntries(entries) && UniqueReceipts(receipts)
    requires local == LocalOf(entries) && lookups == ReceiptsOf(receipts)
    ensures var drafts := Decisions(ExpectedOf(out), local, lookups);
            r == if |drafts| > maxActions then Err(ActionLimitExceeded) else Ok(drafts)
    ensures r.Ok? ==> forall p :: p in r.value ==> r.value[p].relativePath == p
  {
    ghost var f := Decider(ExpectedOf(out), local, lookups);
    ghost var drafts := Decisions(ExpectedOf(out), local, lookups);
    PassesFit(out, entries, local, receipts, lookups);
    DecisionsAreDrafts(ExpectedOf(out), local, receipts);
    DecisionsAreKeyed(ExpectedOf(out), local, lookups);
    r := RunPasses(out, entries, local, receipts, lookups, f, maxActions);
  }

  lemma {:induction false} DecisionsAreKeyed(e: Expected, local: Local, receipts: Receipts)
    ensures forall p :: p in Decisions(e, local, receipts) ==> Decisions(e, local, receipts)[p].relativePath == p
  {
    forall p | p in Decisions(e, local, receipts)
      ensures Decisions(e, local, receipts)[p].relativePath == p
    {
      DecisionAt(p, e, local, receipts);
    }
  }

  /** `f` gives, on the paths each pass visits, what that pass computes. */
  ghost predicate PassesCompute(out: seq<ExpectedPath>, entries: seq<LocalEntry>, local: Local, receipts: seq<Receipt>,
                                lookups: Receipts, f: string -> Option<Draft>)
  {
    && (forall k :: 0 <= k < |out| ==> f(out[k].path) == DraftForExpected(out[k], local, lookups))
    && (forall k :: 0 <= k < |entries| && entries[k].relativePath !in Names(out) ==>
          f(entries[k].relativePath) == Some(DraftLocalOnly(entries[k], IdsIn(out), entries, lookups)))
    && (forall k :: 0 <= k < |receipts| ==>
          OrphanFits(receipts[k], local, PlacesById(out), ExpectedOf(out).Keys + local.Keys, f))
  }

  method RunPasses(out: seq<ExpectedPath>, entries: seq<LocalEntry>, local: Local, receipts: seq<Receipt>,
                   lookups: Receipts,
                   ghost f: string -> Option<Draft>, maxActions: nat)
    returns (r: Result<Drafts, ConvergenceError>)
    requires DistinctPaths(out) && DistinctEntries(entries) && UniqueReceipts(receipts) && local == LocalOf(entries)
    requires PassesCompute(out, entries, local, receipts, lookups, f)
    ensures var drafts := DraftsOn(ExpectedOf(out).Keys + local.Keys + ReceiptPaths(receipts), f);
            r == if |drafts| > maxActions then Err(ActionLimitExceeded) else Ok(drafts)
  {
    NamesAreKeys(out);
    ghost var names := ExpectedOf(out).Keys;
    ghost var all := names + local.Keys + ReceiptPaths(receipts);
    DraftsOnGrow(names, all, f);
    DraftsOnGrow(names + local.Keys, all, f);
    var first :- DraftExpected(out, local, lookups, f, maxActions);
    var second :- DraftLocal(Names(out), IdsIn(out), entries, lookups, f, first, maxActions);
    r := DraftOrphans(receipts, local, PlacesById(out), names + local.Keys, f, second, maxActions);
  }

  function IdsIn(out: seq<ExpectedPath>): set<Id> {
    set k | 0 <= k < |out| :: out[k].item.remoteId
  }

  lemma {:induction false} IdsAreExpected(out: seq<ExpectedPath>)
    requires DistinctPaths(out)
    ensures IdsIn(out) == ExpectedIds(ExpectedOf(out))
  {
    forall k | 0 <= k < |out|
      ensures out[k].item.remoteId in ExpectedIds(ExpectedOf(out))
    {
      ExpectedAt(out, k);
    }
    forall x | x in ExpectedIds(ExpectedOf(out))
      ensures x in IdsIn(out)
    {
      var p :| p in ExpectedOf(out) && ExpectedOf(out)[p].remoteId == x;
      var k := ExpectedHas(out, p);
    }
  }

  lemma {:induction false} DecisionsAreDrafts(e: Expected, local: Local, receipts: seq<Receipt>)
    requires UniqueReceipts(receipts)
    ensures Decisions(e, local, ReceiptsOf(receipts))
            == DraftsOn(e.Keys + local.Keys + ReceiptPaths(receipts), Decider(e, local, ReceiptsOf(receipts)))
  {
    PathsOfReceipts(receipts);
    var lookups := ReceiptsOf(receipts);
    var f := Decider(e, local, lookups);
    var ps := e.Keys + local.Keys + ReceiptPaths(receipts);
    forall p
      ensures f(p) == Decide(p, e, local, lookups)
    {}
    assert Decisions(e, local, lookups).Keys == DraftsOn(ps, f).Keys;
  }

  lemma {:induction false} PathsOfReceipts(receipts: seq<Receipt>)
    requires UniqueReceipts(receipts)
    ensures ReceiptsOf(receipts).byPath.Keys == ReceiptPaths(receipts)
  {
    ReceiptFrom(receipts);
    forall i | 0 <= i < |receipts|
      ensures receipts[i].relativePath in ReceiptsOf(receipts).byPath
    {
      ReceiptHas(receipts, i);
    }
  }

  /** Each pass computes the pointwise decision of the paths it visits. */
  lemma {:induction false} PassesFit(out: seq<ExpectedPath>, entries: seq<LocalEntry>, local: Local,
                                     receipts: seq<Receipt>, lookups: Receipts)
    requires DistinctPaths(out) && DistinctIds(out) && DistinctEntries(entries) && UniqueReceipts(receipts)
    requires local == LocalOf(entries) && lookups == ReceiptsOf(receipts)
    ensures PassesCompute(out, entries, local, receipts, lookups, Decider(ExpectedOf(out), local, lookups))
  {
    forall k | 0 <= k < |out|
      ensures Decider(ExpectedOf(out), local, lookups)(out[k].path) == DraftForExpected(out[k], local, lookups)
    {
      FirstPassFits(out, local, lookups, k);
    }
    forall k | 0 <= k < |entries| && entries[k].relativePath !in Names(out)
      ensures Decider(ExpectedOf(out), local, lookups)(entries[k].relativePath)
              == Some(DraftLocalOnly(entries[k], IdsIn(out), entries, lookups))
    {
      SecondPassFits(out, entries, lookups, k);
    }
    forall k | 0 <= k < |receipts|
      ensures OrphanFits(receipts[k], local, PlacesById(out), ExpectedOf(out).Keys + local.Keys,
                         Decider(ExpectedOf(out), local, lookups))
    {
      OrphansFit(out, local, receipts, k);
    }
  }

  lemma {:induction false} FirstPassFits(out: seq<ExpectedPath>, local: Local, lookups: Receipts, k: nat)
    requires DistinctPaths(out) && k < |out|
    ensures Decide(out[k].path, ExpectedOf(out), local, lookups) == DraftForExpected(out[k], local, lookups)
  {
    ExpectedAt(out, k);
  }

  lemma {:induction false} SecondPassFits(out: seq<ExpectedPath>, entries: seq<LocalEntry>, lookups: Receipts, k: nat)
    requires DistinctPaths(out) && DistinctEntries(entries) && k < |entries| && entries[k].relativePath !in Names(out)
    ensures Decide(entries[k].relativePath, ExpectedOf(out), LocalOf(entries), lookups)
            == Some(DraftLocalOnly(entries[k], IdsIn(out), entries, lookups))
  {
    NamesAreKeys(out);
    IdsAreExpected(out);
    LocalAt(entries, k);
    EmptinessAgrees(entries[k].relativePath, entries);
  }

  /** Counts the expected paths that are settled in one way. */
  method CountSettled(out: seq<ExpectedPath>, local: Local, receipts: Receipts, kind: Settled) returns (count: nat)
    requires DistinctPaths(out)
    ensures count == |SettledPaths(ExpectedOf(out), local, receipts, kind)|
  {
    count := 0;
    for k := 0 to |out|
      invariant count == |SettledPaths(ExpectedOf(out[..k]), local, receipts, kind)|
    {
      NextExpected(out, k);
      NextSettled(ExpectedOf(out[..k]), out[k].path, out[k].item, local, receipts, kind);
      if SettledAs(out[k].item, out[k].path, local, receipts) == Some(kind) {
        count := count + 1;
      }
    }
    assert out[..|out|] == out;
  }

  lemma {:induction false} NextSettled(e: Expected, p: string, item: RemoteItem, local: Local, receipts: Receipts,
                                       kind: Settled)
    requires p !in e
    ensures |SettledPaths(e[p := item], local, receipts, kind)|
            == |SettledPaths(e, local, receipts, kind)|
              + if SettledAs(item, p, local, receipts) == Some(kind) then 1 else 0
  {
    var now := SettledAs(item, p, local, receipts) == Some(kind);
    assert SettledPaths(e[p := item], local, receipts, kind) == SettledPaths(e, local, receipts, kind)
           + if now then {p} else {};
  }

  /** The successful plan depends on its inputs only as sets: permuting them changes nothing. */
  lemma {:induction false} PlanIsCanonical(items: seq<RemoteItem>, items': seq<RemoteItem>, out: seq<ExpectedPath>,
                                           out': seq<ExpectedPath>,
                                           entries: seq<LocalEntry>, entries': seq<LocalEntry>,
                                           receipts: seq<Receipt>, receipts': seq<Receipt>, plan: Plan, plan': Plan)
    requires multiset(items) == multiset(items') && multiset(entries) == multiset(entries')
             && multiset(receipts) == multiset(receipts')
    requires IsExpectedList(items, out) && IsExpectedList(items', out')
    requires DistinctEntries(entries) && DistinctEntries(entries') && UniqueReceipts(receipts)
             && UniqueReceipts(receipts')
    requires IsPlan(plan, ExpectedOf(out), LocalOf(entries), ReceiptsOf(receipts))
    requires IsPlan(plan', ExpectedOf(out'), LocalOf(entries'), ReceiptsOf(receipts'))
    requires plan.receiptCount == |receipts| && plan'.receiptCount == |receipts'|
    ensures plan == plan'
  {
    ListIsCanonical(items, items', out, out');
    LocalIsCanonical(entries, entries');
    ReceiptsAreCanonical(receipts, receipts');
    var drafts := Decisions(ExpectedOf(out), LocalOf(entries), ReceiptsOf(receipts));
    PlanIsUnique(plan.actions, plan'.actions, drafts);
    KindFields(drafts, plan.kinds);
    KindFields(drafts, plan'.kinds);
    assert |multiset(receipts)| == |receipts| && |multiset(receipts')| == |receipts'|;
  }

  lemma {:induction false} LocalIsCanonical(a: seq<LocalEntry>, b: seq<LocalEntry>)
    requires multiset(a) == multiset(b) && DistinctEntries(a) && DistinctEntries(b)
    ensures LocalOf(a) == LocalOf(b)
  {
    LocalIncluded(a, b);
    LocalIncluded(b, a);
  }

  lemma {:induction false} LocalIncluded(a: seq<LocalEntry>, b: seq<LocalEntry>)
    requires multiset(a) == multiset(b) && DistinctEntries(b)
    ensures forall p :: p in LocalOf(a) ==> p in LocalOf(b) && LocalOf(b)[p] == LocalOf(a)[p]
  {
    SameMembers(a, b);
    forall p | p in LocalOf(a)
      ensures p in LocalOf(b) && LocalOf(b)[p] == LocalOf(a)[p]
    {
      var i := LocalHas(a, p);
      assert a[i] in b;
      var j :| 0 <= j < |b| && b[j] == a[i];
      LocalAt(b, j);
    }
  }

  lemma {:induction false} ReceiptsAreCanonical(a: seq<Receipt>, b: seq<Receipt>)
    requires multiset(a) == multiset(b) && UniqueReceipts(a) && UniqueReceipts(b)
    ensures ReceiptsOf(a) == ReceiptsOf(b)
  {
    ReceiptsAreConsistent(a);
    ReceiptsAreConsistent(b);
    ReceiptsIncluded(a, b);
    ReceiptsIncluded(b, a);
  }

  lemma {:induction false} ReceiptsIncluded(a: seq<Receipt>, b: seq<Receipt>)
    requires multiset(a) == multiset(b) && UniqueReceipts(a) && UniqueReceipts(b)
    ensures forall p :: p in ReceiptsOf(a).byPath ==>
              p in ReceiptsOf(b).byPath && ReceiptsOf(b).byPath[p] == ReceiptsOf(a).byPath[p]
    ensures forall x :: x in ReceiptsOf(a).byId ==>
              x in ReceiptsOf(b).byId && ReceiptsOf(b).byId[x] == ReceiptsOf(a).byId[x]
  {
    SameMembers(a, b);
    ReceiptsAreConsistent(a);
    ReceiptsAreConsistent(b);
    ReceiptFrom(a);
    forall p | p in ReceiptsOf(a).byPath
      ensures p in ReceiptsOf(b).byPath && ReceiptsOf(b).byPath[p] == ReceiptsOf(a).byPath[p]
    {
      var i :| 0 <= i < |a| && a[i].relativePath == p;
      ReceiptHas(a, i);
      assert a[i] in b;
      var j :| 0 <= j < |b| && b[j] == a[i];
      ReceiptHas(b, j);
    }
    forall x | x in ReceiptsOf(a).byId
      ensures x in ReceiptsOf(b).byId && ReceiptsOf(b).byId[x] == ReceiptsOf(a).byId[x]
    {
      var p := ReceiptsOf(a).byId[x].relativePath;
      assert ReceiptsOf(b).byPath[p] == ReceiptsOf(a).byPath[p];
    }
  }

  /** Without receipts the two planners agree, and what is blocked is what conflicts or is only local. */
  lemma {:induction false} PlannersAgree(e: Expected, local: Local, plan: Plan, counts: MaterializationPlan)
    requires IsPlan(plan, e, local, Receipts(map[], map[])) && Counts(e, local, counts)
    ensures plan.kinds.createDirectories == counts.tally.missingDirectories
    ensures plan.kinds.materializeMissingFiles == counts.tally.missingFiles
    ensures plan.kinds.verifyExistingFiles == counts.tally.existingFilesUnverified
    ensures plan.kinds.blockedActions == counts.tally.typeConflicts + counts.localOnlyEntries
    ensures plan.unownedMatchingDirectories == counts.tally.matchingDirectories
    ensures plan.kinds.revalidateStaleFileReplacements == plan.kinds.revalidateStaleFileDeletions == 0
    ensures plan.kinds.deleteOwnedEmptyDirectories == plan.currentOwnedFiles == plan.currentOwnedDirectories == 0
  {
    var none := Receipts(map[], map[]);
    var drafts := Decisions(e, local, none);
    TallyFields(e, local, counts.tally);
    KindFields(drafts, plan.kinds);
    KindWithoutReceipts(e, local);
    NeedsAreComparisons(e, local);
    SettledWithoutReceipts(e, local);
    DisjointSize(Comparing(e, local, TypeConflict), local.Keys - e.Keys);
  }

  lemma {:induction false} KindFields(drafts: Drafts, kinds: KindTally)
    requires forall kind: ActionKind :: kinds.Of(kind) == |PathsOfKind(drafts, kind)|
    ensures kinds.createDirectories == |PathsOfKind(drafts, CreateDirectory)|
    ensures kinds.materializeMissingFiles == |PathsOfKind(drafts, MaterializeMissingFile)|
    ensures kinds.verifyExistingFiles == |PathsOfKind(drafts, VerifyExistingFile)|
    ensures kinds.revalidateStaleFileReplacements == |PathsOfKind(drafts, RevalidateStaleFileReplacement)|
    ensures kinds.revalidateStaleFileDeletions == |PathsOfKind(drafts, RevalidateStaleFileDeletion)|
    ensures kinds.deleteOwnedEmptyDirectories == |PathsOfKind(drafts, DeleteOwnedEmptyDirectory)|
    ensures kinds.blockedActions == |PathsOfKind(drafts, Blocked)|
  {
    assert kinds.Of(CreateDirectory) == kinds.createDirectories
           && kinds.Of(MaterializeMissingFile) == kinds.materializeMissingFiles;
    assert kinds.Of(VerifyExistingFile) == kinds.verifyExistingFiles;
    assert kinds.Of(RevalidateStaleFileReplacement) == kinds.revalidateStaleFileReplacements;
    assert kinds.Of(RevalidateStaleFileDeletion) == kinds.revalidateStaleFileDeletions;
    assert kinds.Of(DeleteOwnedEmptyDirectory) == kinds.deleteOwnedEmptyDirectories
           && kinds.Of(Blocked) == kinds.blockedActions;
  }

  /** What a path needs when nothing is owned. */
  function NeedWithoutReceipts(e: Expected, local: Local, p: string): Option<ActionKind> {
    if p !in e then if p in local then Some(Blocked) else None
    else match Compare(e[p], Lookup(local, p))
      case MissingDirectory => Some(CreateDirectory)
      case MissingFile => Some(MaterializeMissingFile)
      case MatchingDirectory => None
      case ExistingFile => Some(VerifyExistingFile)
      case TypeConflict => Some(Blocked)
  }

  lemma {:induction false} DecideWithoutReceipts(e: Expected, local: Local, p: string)
    ensures var decision := Decide(p, e, local, Receipts(map[], map[]));
            (if decision.None? then None else Some(decision.value.kind)) == NeedWithoutReceipts(e, local, p)
  {}

  function Needing(e: Expected, local: Local, kind: ActionKind): set<string> {
    set p | p in e.Keys + local.Keys && NeedWithoutReceipts(e, local, p) == Some(kind)
  }

  lemma {:induction false} KindWithoutReceipts(e: Expected, local: Local)
    ensures forall kind: ActionKind ::
            PathsOfKind(Decisions(e, local, Receipts(map[], map[])), kind) == Needing(e, local, kind)
  {
    var none := Receipts(map[], map[]);
    forall kind: ActionKind, p
      ensures p in PathsOfKind(Decisions(e, local, none), kind) <==> p in Needing(e, local, kind)
    {
      DecideWithoutReceipts(e, local, p);
      DecisionAt(p, e, local, none);
    }
  }

  lemma {:induction false} NeedsAreComparisons(e: Expected, local: Local)
    ensures Needing(e, local, CreateDirectory) == Comparing(e, local, MissingDirectory)
    ensures Needing(e, local, MaterializeMissingFile) == Comparing(e, local, MissingFile)
    ensures Needing(e, local, VerifyExistingFile) == Comparing(e, local, ExistingFile)
    ensures Needing(e, local, Blocked) == Comparing(e, local, TypeConflict) + (local.Keys - e.Keys)
    ensures Needing(e, local, RevalidateStaleFileReplacement) == Needing(e, local, RevalidateStaleFileDeletion)
            == Needing(e, local, DeleteOwnedEmptyDirectory) == {}
  {}

  lemma {:induction false} SettledWithoutReceipts(e: Expected, local: Local)
    ensures SettledPaths(e, local, Receipts(map[], map[]), UnownedDirectory) == Comparing(e, local, MatchingDirectory)
    ensures SettledPaths(e, local, Receipts(map[], map[]), OwnedFile) == {}
    ensures SettledPaths(e, local, Receipts(map[], map[]), OwnedDirectory) == {}
  {}
}
