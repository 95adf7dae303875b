/** The convergence planner: three passes that fill one map of drafts, a sort, and counts. */
module ConvergencePlanner {
  import opened Wrappers
  import opened RemoteCatalog
  import opened SubtreeWalk
  import opened Hydration
  import opened Sorting
  import opened Paths
  import opened RemoteTree
  import opened ExpectedPaths
  import opened TreeListing
  import opened ExpectedTree
  import opened Materialization
  import opened ConvergenceDecision

  datatype ConvergenceError =
    | MaterializationFailed(cause: MaterializationError)
    | InvalidMaxActions
    | DuplicateReceiptRemoteId
    | DuplicateReceiptPath
    | ActionLimitExceeded

  /** The drafts that the decisions `f` give on a set of paths. */
  function DraftsOn(ps: set<string>, f: string -> Option<Draft>): Drafts {
    map p | p in ps && f(p).Some? :: f(p).value
  }

  lemma {:induction false} DraftsOnGrow(ps: set<string>, qs: set<string>, f: string -> Option<Draft>)
    requires ps <= qs
    ensures |DraftsOn(ps, f)| <= |DraftsOn(qs, f)|
  {
    SubsetSize(DraftsOn(ps, f).Keys, DraftsOn(qs, f).Keys);
  }

  /**
   One call: at most the candidate's path is new, the drafts of all other paths stay, the same kind again
   changes nothing, and a second kind blocks the path and drops its id. It fails exactly when a new path
   makes one draft too many.
   */
  method SetAction(drafts: Drafts, candidate: Draft, maxActions: nat) returns (r: Result<Drafts, ConvergenceError>)
    ensures r.Err? <==> candidate.relativePath !in drafts && |drafts| >= maxActions
    ensures r.Err? ==> r.error == ActionLimitExceeded
    ensures r.Ok? ==> r.value.Keys == drafts.Keys + {candidate.relativePath}
    ensures r.Ok? ==> forall q :: q in drafts && q != candidate.relativePath ==> r.value[q] == drafts[q]
    ensures r.Ok? && candidate.relativePath !in drafts ==> r.value[candidate.relativePath] == candidate
    ensures r.Ok? && candidate.relativePath in drafts ==>
              var before, after := drafts[candidate.relativePath], r.value[candidate.relativePath];
              if before.kind == candidate.kind then after == before
              else after.kind.Blocked? && after.remoteId.None? && after.relativePath == candidate.relativePath
  {
    var p := candidate.relativePath;
    if p in drafts {
      if drafts[p].kind == candidate.kind {
        return Ok(drafts);
      }
      return Ok(drafts[p := Draft(Blocked, None, p)]);
    }
    var grown := drafts[p := candidate];
    if |grown| > maxActions {
      return Err(ActionLimitExceeded);
    }
    return Ok(grown);
  }

  lemma {:induction false} OneDraftMore(drafts: Drafts, candidate: Draft, after: Drafts)
    requires after.Keys == drafts.Keys + {candidate.relativePath} && after[candidate.relativePath] == candidate
    requires forall q :: q in drafts && q != candidate.relativePath ==> after[q] == drafts[q]
    ensures after == drafts[candidate.relativePath := candidate]
  {
  }

  lemma {:induction false} SameDrafts(drafts: Drafts, p: string, after: Drafts)
    requires p in drafts && after.Keys == drafts.Keys + {p} && after[p] == drafts[p]
    requires forall q :: q in drafts && q != p ==> after[q] == drafts[q]
    ensures after == drafts
  {
  }

  /** A pass decides a new path: it is drafted as decided, or the decided paths already exceed the limit. */
  method DraftPath(ghost ps: set<string>, p: string, decision: Option<Draft>, ghost f: string -> Option<Draft>,
                   drafts: Drafts, maxActions: nat)
    returns (r: Result<Drafts, ConvergenceError>)
    requires p !in ps && drafts == DraftsOn(ps, f) && |drafts| <= maxActions
    requires decision == f(p) && (decision.Some? ==> decision.value.relativePath == p)
    ensures r.Ok? ==> r.value == DraftsOn(ps + {p}, f) && |r.value| <= maxActions
    ensures r.Err? ==> r.error == ActionLimitExceeded && |DraftsOn(ps + {p}, f)| > maxActions
  {
    if decision.None? {
      assert DraftsOn(ps + {p}, f) == drafts;
      return Ok(drafts);
    }
    assert DraftsOn(ps + {p}, f) == drafts[p := decision.value];
    r := SetAction(drafts, decision.value, maxActions);
    if r.Ok? {
      OneDraftMore(drafts, decision.value, r.value);
    }
  }

  ghost predicate UniqueReceipts(receipts: seq<Receipt>) {
    forall i, j :: 0 <= i < j < |receipts| ==>
      receipts[i].remoteId != receipts[j].remoteId && receipts[i].relativePath != receipts[j].relativePath
  }

  function ReceiptsOf(receipts: seq<Receipt>): Receipts {
    if receipts == [] then Receipts(map[], map[])
    else
      var before, last := ReceiptsOf(receipts[..|receipts| - 1]), receipts[|receipts| - 1];
      Receipts(before.byId[last.remoteId := last], before.byPath[last.relativePath := last])
  }

  lemma {:induction false} ReceiptHas(receipts: seq<Receipt>, i: nat)
    requires i < |receipts| && UniqueReceipts(receipts)
    ensures receipts[i].remoteId in ReceiptsOf(receipts).byId && receipts[i].relativePath in ReceiptsOf(receipts).byPath
    ensures ReceiptsOf(receipts).byPath[receipts[i].relativePath] == receipts[i]
    decreases |receipts|
  {
    var n := |receipts| - 1;
    if i < n {
      ReceiptHas(receipts[..n], i);
    }
  }

  lemma {:induction false} ReceiptFrom(receipts: seq<Receipt>)
    ensures forall x :: x in ReceiptsOf(receipts).byId ==> exists i :: 0 <= i < |receipts| && receipts[i].remoteId == x
    ensures forall p :: p in ReceiptsOf(receipts).byPath ==>
              exists i :: 0 <= i < |receipts| && receipts[i].relativePath == p
    decreases |receipts|
  {
    if receipts != [] {
      var n := |receipts| - 1;
      ReceiptFrom(receipts[..n]);
      assert forall i :: 0 <= i < n ==> receipts[..n][i] == receipts[i];
      assert receipts[n].remoteId == receipts[n].remoteId;
    }
  }

  lemma {:induction false} ReceiptsAreConsistent(receipts: seq<Receipt>)
    requires UniqueReceipts(receipts)
    ensures ReceiptsOf(receipts).Consistent()
    decreases |receipts|
  {
    if receipts != [] {
      var n := |receipts| - 1;
      ReceiptsAreConsistent(receipts[..n]);
      ReceiptFrom(receipts[..n]);
    }
  }

  ghost predicate IdMetBefore(receipts: seq<Receipt>, k: nat)
    requires k < |receipts|
  {
    exists i :: 0 <= i < k && receipts[i].remoteId == receipts[k].remoteId
  }

  ghost predicate PathMetBefore(receipts: seq<Receipt>, k: nat)
    requires k < |receipts|
  {
    exists i :: 0 <= i < k && receipts[i].relativePath == receipts[k].relativePath
  }

  /** What is wrong with one receipt: a repeated id is noticed before a repeated path. */
  ghost function ReceiptIssueAt(receipts: seq<Receipt>, k: nat): Option<ConvergenceError>
    requires k < |receipts|
  {
    if IdMetBefore(receipts, k) then Some(DuplicateReceiptRemoteId)
    else if PathMetBefore(receipts, k) then Some(DuplicateReceiptPath)
    else None
  }

  ghost function FirstReceiptIssue(receipts: seq<Receipt>, n: nat): Option<ConvergenceError>
    requires n <= |receipts|
  {
    if n == 0 then None
    else if FirstReceiptIssue(receipts, n - 1).Some? then FirstReceiptIssue(receipts, n - 1)
    else ReceiptIssueAt(receipts, n - 1)
  }

  ghost function ReceiptIssue(receipts: seq<Receipt>): Option<ConvergenceError> {
    FirstReceiptIssue(receipts, |receipts|)
  }

  lemma {:induction false} FirstReceiptIssueIff(receipts: seq<Receipt>, n: nat)
    requires n <= |receipts|
    ensures FirstReceiptIssue(receipts, n).None? <==> forall k :: 0 <= k < n ==> ReceiptIssueAt(receipts, k).None?
  {
    if n > 0 {
      FirstReceiptIssueIff(receipts, n - 1);
    }
  }

  lemma {:induction false} FirstReceiptIssueStays(receipts: seq<Receipt>, m: nat, n: nat)
    requires m <= n <= |receipts| && FirstReceiptIssue(receipts, m).Some?
    ensures FirstReceiptIssue(receipts, n) == FirstReceiptIssue(receipts, m)
    decreases n
  {
    if m < n {
      FirstReceiptIssueStays(receipts, m, n - 1);
    }
  }

  /** There is no complaint exactly when no id and no path occurs twice. */
  lemma {:induction false} ReceiptIssueIff(receipts: seq<Receipt>)
    ensures ReceiptIssue(receipts).None? <==> UniqueReceipts(receipts)
  {
    FirstReceiptIssueIff(receipts, |receipts|);
    if ReceiptIssue(receipts).None? {
      forall i, j | 0 <= i < j < |receipts|
        ensures receipts[i].remoteId != receipts[j].remoteId && receipts[i].relativePath != receipts[j].relativePath
      {
        assert ReceiptIssueAt(receipts, j).None? && !IdMetBefore(receipts, j) && !PathMetBefore(receipts, j);
      }
    }
  }

  /** Looking an id or a path up among the receipts scanned so far tells whether it was met before. */
  lemma {:induction false} MetIffIndexed(receipts: seq<Receipt>, k: nat)
    requires k < |receipts| && UniqueReceipts(receipts[..k])
    ensures IdMetBefore(receipts, k) <==> receipts[k].remoteId in ReceiptsOf(receipts[..k]).byId
    ensures PathMetBefore(receipts, k) <==> receipts[k].relativePath in ReceiptsOf(receipts[..k]).byPath
  {
    ReceiptFrom(receipts[..k]);
    forall i | 0 <= i < k
      ensures receipts[i].remoteId in ReceiptsOf(receipts[..k]).byId
      ensures receipts[i].relativePath in ReceiptsOf(receipts[..k]).byPath
    {
      ReceiptHas(receipts[..k], i);
    }
    assert forall i :: 0 <= i < k ==> receipts[..k][i] == receipts[i];
  }

  lemma {:induction false} UnmetStaysUnique(receipts: seq<Receipt>, k: nat)
    requires k < |receipts| && UniqueReceipts(receipts[..k]) && ReceiptIssueAt(receipts, k).None?
    ensures UniqueReceipts(receipts[..k + 1])
  {
    assert !IdMetBefore(receipts, k) && !PathMetBefore(receipts, k);
  }

  lemma {:induction false} NextReceiptIssue(receipts: seq<Receipt>, k: nat)
    requires k < |receipts| && FirstReceiptIssue(receipts, k).None?
    ensures ReceiptIssueAt(receipts, k).Some? ==> ReceiptIssue(receipts) == ReceiptIssueAt(receipts, k)
    ensures ReceiptIssueAt(receipts, k).None? ==> FirstReceiptIssue(receipts, k + 1).None?
  {
    if ReceiptIssueAt(receipts, k).Some? {
      FirstReceiptIssueStays(receipts, k + 1, |receipts|);
    }
  }

  method ScanReceipts(receipts: seq<Receipt>) returns (r: Result<Receipts, ConvergenceError>)
    ensures r.Ok? <==> UniqueReceipts(receipts)
    ensures r.Ok? ==> r.value == ReceiptsOf(receipts)
    ensures r.Err? ==> ReceiptIssue(receipts) == Some(r.error)
  {
    ReceiptIssueIff(receipts);
    var scanned := Receipts(map[], map[]);
    for k := 0 to |receipts|
      invariant UniqueReceipts(receipts[..k]) && scanned == ReceiptsOf(receipts[..k])
      invariant FirstReceiptIssue(receipts, k).None?
    {
      var receipt := receipts[k];
      MetIffIndexed(receipts, k);
      NextReceiptIssue(receipts, k);
      if receipt.remoteId in scanned.byId {
        return Err(DuplicateReceiptRemoteId);
      }
      if receipt.relativePath in scanned.byPath {
        return Err(DuplicateReceiptPath);
      }
      UnmetStaysUnique(receipts, k);
      assert receipts[..k + 1][..k] == receipts[..k];
      scanned := Receipts(scanned.byId[receipt.remoteId := receipt], scanned.byPath[receipt.relativePath := receipt]);
    }
    assert receipts[..|receipts|] == receipts;
    return Ok(scanned);
  }

  /** The body of the first pass. */
  function DraftForExpected(entry: ExpectedPath, local: Local, receipts: Receipts): Option<Draft> {
    var kind := DecideExpected(entry.item, entry.path, local, receipts);
    if kind.None? then None else Some(Draft(kind.value, Some(entry.item.remoteId), entry.path))
  }

  /** The first pass: every expected path. */
  method DraftExpected(out: seq<ExpectedPath>, local: Local, receipts: Receipts, ghost f: string -> Option<Draft>,
                       maxActions: nat)
    returns (r: Result<Drafts, ConvergenceError>)
    requires DistinctPaths(out)
    requires forall k :: 0 <= k < |out| ==> f(out[k].path) == DraftForExpected(out[k], local, receipts)
    ensures r.Ok? ==> r.value == DraftsOn(ExpectedOf(out).Keys, f) && |r.value| <= maxActions
    ensures r.Err? ==> r.error == ActionLimitExceeded && |DraftsOn(ExpectedOf(out).Keys, f)| > maxActions
  {
    var drafts: Drafts := map[];
    for k := 0 to |out|
      invariant drafts == DraftsOn(ExpectedOf(out[..k]).Keys, f) && |drafts| <= maxActions
    {
      ghost var before := ExpectedOf(out[..k]).Keys;
      NextExpected(out, k);
      var next := DraftPath(before, out[k].path, DraftForExpected(out[k], local, receipts), f, drafts, maxActions);
      if next.Err? {
        PrefixKeys(out, k + 1);
        DraftsOnGrow(before + {out[k].path}, ExpectedOf(out).Keys, f);
        return next;
      }
      assert before + {out[k].path} == ExpectedOf(out[..k + 1]).Keys;
      drafts := next.value;
    }
    assert out[..|out|] == out;
    return Ok(drafts);
  }

  lemma {:induction false} PrefixKeys(out: seq<ExpectedPath>, k: nat)
    requires k <= |out| && DistinctPaths(out)
    ensures ExpectedOf(out[..k]).Keys <= ExpectedOf(out).Keys
  {
    NamesAreKeys(out);
    NamesAreKeys(out[..k]);
    assert forall i :: 0 <= i < k ==> out[..k][i] == out[i];
  }

  /** `local_directory_is_empty`, over the scanned entries. */
  predicate LocalDirectoryIsEmpty(p: string, entries: seq<LocalEntry>) {
    forall i :: 0 <= i < |entries| ==> !IsBelow(entries[i].relativePath, p)
  }

  lemma {:induction false} EmptinessAgrees(p: string, entries: seq<LocalEntry>)
    ensures LocalDirectoryIsEmpty(p, entries) <==> IsEmptyIn(LocalOf(entries), p)
  {
    forall q | q in LocalOf(entries)
      ensures exists i :: 0 <= i < |entries| && entries[i].relativePath == q
    {
      var i := LocalHas(entries, q);
    }
    forall i | 0 <= i < |entries|
      ensures entries[i].relativePath in LocalOf(entries)
    {
      LocalAt(entries, i);
    }
  }

  /** The body of the second pass, for an entry outside the expected paths. */
  function DraftLocalOnly(entry: LocalEntry, expectedIds: set<Id>, entries: seq<LocalEntry>, receipts: Receipts): Draft
  {
    var p := entry.relativePath;
    if p !in receipts.byPath then Draft(Blocked, None, p)
    else
      var receipt := receipts.byPath[p];
      if !receipt.state.Stale? || receipt.kind != entry.kind || receipt.remoteId in expectedIds then
        Draft(Blocked, Some(receipt.remoteId), p)
      else
        Draft(if entry.kind.LocalFile? then RevalidateStaleFileDeletion
              else if LocalDirectoryIsEmpty(p, entries) then DeleteOwnedEmptyDirectory
              else Blocked, Some(receipt.remoteId), p)
  }

  /** The second pass: every scanned entry outside the expected paths. */
  method DraftLocal(names: set<string>, ids: set<Id>, entries: seq<LocalEntry>, receipts: Receipts,
                    ghost f: string -> Option<Draft>, drafted: Drafts, maxActions: nat)
    returns (r: Result<Drafts, ConvergenceError>)
    requires DistinctEntries(entries) && drafted == DraftsOn(names, f) && |drafted| <= maxActions
    requires forall k :: 0 <= k < |entries| && entries[k].relativePath !in names ==>
               f(entries[k].relativePath) == Some(DraftLocalOnly(entries[k], ids, entries, receipts))
    ensures r.Ok? ==> r.value == DraftsOn(names + LocalOf(entries).Keys, f) && |r.value| <= maxActions
    ensures r.Err? ==> r.error == ActionLimitExceeded && |DraftsOn(names + LocalOf(entries).Keys, f)| > maxActions
  {
    var drafts := drafted;
    assert names + LocalOf(entries[..0]).Keys == names;
    for k := 0 to |entries|
      invariant drafts == DraftsOn(names + LocalOf(entries[..k]).Keys, f) && |drafts| <= maxActions
    {
      var p := entries[k].relativePath;
      ghost var before := names + LocalOf(entries[..k]).Keys;
      NextLocal(entries, k);
      assert before + {p} == names + LocalOf(entries[..k + 1]).Keys;
      if p in names {
        assert before + {p} == before;
      } else {
        var draft := DraftLocalOnly(entries[k], ids, entries, receipts);
        assert draft.relativePath == p;
        var next := DraftPath(before, p, Some(draft), f, drafts, maxActions);
        if next.Err? {
          DraftsOnGrow(before + {p}, names + LocalOf(entries).Keys, f);
          return next;
        }
        drafts := next.value;
      }
    }
    assert entries[..|entries|] == entries;
    return Ok(drafts);
  }

  lemma {:induction false} NextLocal(entries: seq<LocalEntry>, k: nat)
    requires k < |entries| && DistinctEntries(entries)
    ensures LocalOf(entries[..k + 1]).Keys == LocalOf(entries[..k]).Keys + {entries[k].relativePath}
    ensures entries[k].relativePath !in LocalOf(entries[..k])
    ensures LocalOf(entries[..k + 1]).Keys <= LocalOf(entries).Keys
  {
    assert entries[..k + 1][..k] == entries[..k];
    if entries[k].relativePath in LocalOf(entries[..k]) {
      var i := LocalHas(entries[..k], entries[k].relativePath);
    }
    forall q | q in LocalOf(entries[..k + 1])
      ensures q in LocalOf(entries)
    {
      var i := LocalHas(entries[..k + 1], q);
      LocalAt(entries, i);
    }
  }

  function ReceiptPaths(receipts: seq<Receipt>): set<string> {
    set i | 0 <= i < |receipts| :: receipts[i].relativePath
  }

  /** The receipt belongs to an expected item of its kind that is missing at its path. */
  predicate IsMissingTarget(receipt: Receipt, expectedById: map<Id, (string, RemoteItemKind)>) {
    receipt.remoteId in expectedById
    && expectedById[receipt.remoteId].0 == receipt.relativePath
    && LocalKindFor(expectedById[receipt.remoteId].1) == receipt.kind
  }

  /** What the third pass needs to know about a receipt: it adds nothing to a path drafted before. */
  ghost predicate OrphanFits(receipt: Receipt, local: Local, expectedById: map<Id, (string, RemoteItemKind)>,
                             done: set<string>, f: string -> Option<Draft>)
  {
    var p := receipt.relativePath;
    if p in local || IsMissingTarget(receipt, expectedById) then p in done
    else if p in done then f(p).Some? && f(p).value.kind.Blocked?
    else f(p) == Some(Draft(Blocked, Some(receipt.remoteId), p))
  }

  /** The third pass: every receipt whose local entry is gone. */
  method DraftOrphans(receipts: seq<Receipt>, local: Local, expectedById: map<Id, (string, RemoteItemKind)>,
                      ghost done: set<string>, ghost f: string -> Option<Draft>, drafted: Drafts, maxActions: nat)
    returns (r: Result<Drafts, ConvergenceError>)
    requires UniqueReceipts(receipts) && drafted == DraftsOn(done, f) && |drafted| <= maxActions
    requires forall k :: 0 <= k < |receipts| ==> OrphanFits(receipts[k], local, expectedById, done, f)
    ensures r.Ok? ==> r.value == DraftsOn(done + ReceiptPaths(receipts), f) && |r.value| <= maxActions
    ensures r.Err? ==> r.error == ActionLimitExceeded && |DraftsOn(done + ReceiptPaths(receipts), f)| > maxActions
  {
    var drafts := drafted;
    assert done + ReceiptPaths(receipts[..0]) == done;
    for k := 0 to |receipts|
      invariant drafts == DraftsOn(done + ReceiptPaths(receipts[..k]), f) && |drafts| <= maxActions
    {
      var receipt := receipts[k];
      var p := receipt.relativePath;
      ghost var before := done + ReceiptPaths(receipts[..k]);
      assert OrphanFits(receipt, local, expectedById, done, f);
      NextReceipt(receipts, k);
      assert before + {p} == done + ReceiptPaths(receipts[..k + 1]);
      if p in local || IsMissingTarget(receipt, expectedById) {
        assert before + {p} == before;
      } else {
        var draft := Draft(Blocked, Some(receipt.remoteId), p);
        var next := SetAction(drafts, draft, maxActions);
        OrphanDrafted(before, p, draft, f);
        if next.Err? {
          DraftsOnGrow(before + {p}, done + ReceiptPaths(receipts), f);
          return next;
        }
        if p in before {
          SameDrafts(drafts, p, next.value);
        } else {
          OneDraftMore(drafts, draft, next.value);
        }
        drafts := next.value;
      }
    }
    assert receipts[..|receipts|] == receipts;
    return Ok(drafts);
  }

  lemma {:induction false} NextReceipt(receipts: seq<Receipt>, k: nat)
    requires k < |receipts| && UniqueReceipts(receipts)
    ensures ReceiptPaths(receipts[..k + 1]) == ReceiptPaths(receipts[..k]) + {receipts[k].relativePath}
    ensures receipts[k].relativePath !in ReceiptPaths(receipts[..k])
    ensures ReceiptPaths(receipts[..k + 1]) <= ReceiptPaths(receipts)
  {
    assert forall i :: 0 <= i < k ==> receipts[..k][i] == receipts[i] && receipts[..k + 1][i] == receipts[i];
  }

  lemma {:induction false} OrphanDrafted(before: set<string>, p: string, draft: Draft, f: string -> Option<Draft>)
    requires draft.kind.Blocked? && draft.relativePath == p
    requires if p in before then f(p).Some? && f(p).value.kind.Blocked? else f(p) == Some(draft)
    ensures p in before ==> DraftsOn(before + {p}, f) == DraftsOn(before, f)
    ensures p !in before ==> DraftsOn(before + {p}, f) == DraftsOn(before, f)[p := draft]
    ensures p in before ==> p in DraftsOn(before, f) && DraftsOn(before, f)[p].kind.Blocked?
  {}

  /** The expected paths by id, as the planner looks them up. */
  function PlacesById(out: seq<ExpectedPath>): map<Id, (string, RemoteItemKind)> {
    if out == [] then map[]
    else
      var last := out[|out| - 1];
      PlacesById(out[..|out| - 1])[last.item.remoteId := (last.path, last.item.kind)]
  }

  lemma {:induction false} PlaceOf(out: seq<ExpectedPath>, x: Id)
    requires x in PlacesById(out)
    ensures exists i ::
            0 <= i < |out| && out[i].item.remoteId == x && PlacesById(out)[x] == (out[i].path, out[i].item.kind)
    decreases |out|
  {
    var n := |out| - 1;
    if out[n].item.remoteId != x {
      PlaceOf(out[..n], x);
      var i :| 0 <= i < n && out[..n][i].item.remoteId == x
        && PlacesById(out[..n])[x] == (out[..n][i].path, out[..n][i].item.kind);
      assert out[i].item.remoteId == x;
    }
  }

  lemma {:induction false} PlaceAt(out: seq<ExpectedPath>, i: nat)
    requires i < |out| && forall a, b :: 0 <= a < b < |out| ==> out[a].item.remoteId != out[b].item.remoteId
    ensures out[i].item.remoteId in PlacesById(out)
    ensures PlacesById(out)[out[i].item.remoteId] == (out[i].path, out[i].item.kind)
    decreases |out|
  {
    var n := |out| - 1;
    if i < n {
      PlaceAt(out[..n], i);
    }
  }

  /** The decisions as a function value, so that the passes need not look inside. */
  ghost function Decider(e: Expected, local: Local, receipts: Receipts): string -> Option<Draft> {
    p => Decide(p, e, local, receipts)
  }

  /** The lookup by id finds a receipt's own place exactly when its path is expected for its id and kind. */
  lemma {:induction false} MissingTargetIff(out: seq<ExpectedPath>, receipt: Receipt)
    requires DistinctPaths(out) && DistinctIds(out)
    ensures IsMissingTarget(receipt, PlacesById(out)) <==> HoldsPlace(ExpectedOf(out), receipt)
  {
    if receipt.remoteId in PlacesById(out) {
      PlaceOf(out, receipt.remoteId);
      var i :| 0 <= i < |out| && out[i].item.remoteId == receipt.remoteId
        && PlacesById(out)[receipt.remoteId] == (out[i].path, out[i].item.kind);
      ExpectedAt(out, i);
    }
    if receipt.relativePath in ExpectedOf(out) {
      var j := ExpectedHas(out, receipt.relativePath);
      PlaceAt(out, j);
    }
  }

  predicate HoldsPlace(e: Expected, receipt: Receipt) {
    var p := receipt.relativePath;
    p in e && e[p].remoteId == receipt.remoteId && LocalKindFor(e[p].kind) == receipt.kind
  }

  /** A receipt left over at an expected path has blocked that path in the first pass. */
  lemma {:induction false} LeftoverDecision(e: Expected, local: Local, receipts: Receipts, p: string)
    requires receipts.Consistent() && p in receipts.byPath && p !in local && !HoldsPlace(e, receipts.byPath[p])
    ensures p in e ==> Decide(p, e, local, receipts).Some? && Decide(p, e, local, receipts).value.kind.Blocked?
    ensures p !in e ==> Decide(p, e, local, receipts) == Some(Draft(Blocked, Some(receipts.byPath[p].remoteId), p))
  {
    if p in e {
      assert ReceiptConflict(e[p], p, receipts);
    }
  }

  /** So the third pass never meets a different kind. */
  lemma {:induction false} OrphansFit(out: seq<ExpectedPath>, local: Local, list: seq<Receipt>, k: nat)
    requires DistinctPaths(out) && DistinctIds(out) && UniqueReceipts(list) && k < |list|
    ensures OrphanFits(list[k], local, PlacesById(out), ExpectedOf(out).Keys + local.Keys,
                       Decider(ExpectedOf(out), local, ReceiptsOf(list)))
  {
    ReceiptsAreConsistent(list);
    ReceiptHas(list, k);
    MissingTargetIff(out, list[k]);
    if list[k].relativePath !in local && !HoldsPlace(ExpectedOf(out), list[k]) {
      LeftoverDecision(ExpectedOf(out), local, ReceiptsOf(list), list[k].relativePath);
    }
  }

  /** The collected drafts, sorted; the order of collection does not matter. */
  method ListActions(drafts: Drafts) returns (actions: seq<Action>)
    requires forall p :: p in drafts ==> drafts[p].relativePath == p
    ensures ListsDrafts(actions, drafts)
  {
    var keys := ListElements(drafts.Keys);
    var collected: seq<Action> := [];
    for k := 0 to |keys|
      invariant |collected| == k && forall i :: 0 <= i < k ==>
                  keys[i] in drafts && collected[i] == ActionOf(drafts[keys[i]])
    {
      assert keys[k] in keys;
      collected := collected + [ActionOf(drafts[keys[k]])];
    }
    ActionOrder();
    assert forall i :: 0 <= i < |keys| ==> collected[i].relativePath == keys[i];
    SortSorts(ActionBefore, collected);
    actions := Sort(ActionBefore, collected);
    forall a
      ensures a in actions <==> a.relativePath in drafts && a == ActionOf(drafts[a.relativePath])
    {
      if a.relativePath in drafts && a == ActionOf(drafts[a.relativePath]) {
        assert a.relativePath in keys;
        var i :| 0 <= i < |keys| && keys[i] == a.relativePath;
        assert collected[i] == a;
      }
    }
  }

  /** The seven counters of the plan. */
  datatype KindTally = KindTally(
    createDirectories: nat, materializeMissingFiles: nat, verifyExistingFiles: nat,
    revalidateStaleFileReplacements: nat, revalidateStaleFileDeletions: nat,
    deleteOwnedEmptyDirectories: nat, blockedActions: nat)
  {
    function Of(kind: ActionKind): nat {
      match kind
      case CreateDirectory => createDirectories
      case MaterializeMissingFile => materializeMissingFiles
      case VerifyExistingFile => verifyExistingFiles
      case RevalidateStaleFileReplacement => revalidateStaleFileReplacements
      case RevalidateStaleFileDeletion => revalidateStaleFileDeletions
      case DeleteOwnedEmptyDirectory => deleteOwnedEmptyDirectories
      case Blocked => blockedActions
    }

    function Bump(kind: ActionKind): (t: KindTally)
      ensures forall k: ActionKind :: t.Of(k) == Of(k) + if k == kind then 1 else 0
    {
      match kind
      case CreateDirectory => this.(createDirectories := createDirectories + 1)
      case MaterializeMissingFile => this.(materializeMissingFiles := materializeMissingFiles + 1)
      case VerifyExistingFile => this.(verifyExistingFiles := verifyExistingFiles + 1)
      case RevalidateStaleFileReplacement =>
        this.(revalidateStaleFileReplacements := revalidateStaleFileReplacements + 1)
      case RevalidateStaleFileDeletion => this.(revalidateStaleFileDeletions := revalidateStaleFileDeletions + 1)
      case DeleteOwnedEmptyDirectory => this.(deleteOwnedEmptyDirectories := deleteOwnedEmptyDirectories + 1)
      case Blocked => this.(blockedActions := blockedActions + 1)
    }
  }

  /** The paths drafted as one kind. */
  function PathsOfKind(drafts: Drafts, kind: ActionKind): set<string> {
    set p | p in drafts && drafts[p].kind == kind
  }

  function ActionPaths(actions: seq<Action>, kind: ActionKind): set<string> {
    if actions == [] then {}
    else
      var last := actions[|actions| - 1];
      ActionPaths(actions[..|actions| - 1], kind) + if last.kind == kind then {last.relativePath} else {}
  }

  lemma {:induction false} ActionPathsHave(actions: seq<Action>, kind: ActionKind, p: string)
    ensures p in ActionPaths(actions, kind)
            <==> exists i :: 0 <= i < |actions| && actions[i].kind == kind && actions[i].relativePath == p
    decreases |actions|
  {
    if actions != [] {
      var n := |actions| - 1;
      ActionPathsHave(actions[..n], kind, p);
      assert forall i :: 0 <= i < n ==> actions[..n][i] == actions[i];
      if i :| 0 <= i < |actions| && actions[i].kind == kind && actions[i].relativePath == p {
        assert i == n || actions[..n][i] == actions[i];
      }
    }
  }

  method CountKinds(actions: seq<Action>, ghost drafts: Drafts) returns (tally: KindTally)
    requires ListsDrafts(actions, drafts)
    ensures forall kind: ActionKind :: tally.Of(kind) == |PathsOfKind(drafts, kind)|
  {
    tally := KindTally(0, 0, 0, 0, 0, 0, 0);
    for k := 0 to |actions|
      invariant forall kind: ActionKind :: tally.Of(kind) == |ActionPaths(actions[..k], kind)|
    {
      NextAction(actions, drafts, k);
      tally := tally.Bump(actions[k].kind);
    }
    assert actions[..|actions|] == actions;
    forall kind: ActionKind
      ensures ActionPaths(actions, kind) == PathsOfKind(drafts, kind)
    {
      PathsOfActions(actions, drafts, kind);
    }
  }

  lemma {:induction false} PathsOfActions(actions: seq<Action>, drafts: Drafts, kind: ActionKind)
    requires ListsDrafts(actions, drafts)
    ensures ActionPaths(actions, kind) == PathsOfKind(drafts, kind)
  {
    forall p
      ensures p in ActionPaths(actions, kind) <==> p in PathsOfKind(drafts, kind)
    {
      ActionPathsHave(actions, kind, p);
      assert forall i :: 0 <= i < |actions| ==> actions[i] in actions;
      if p in PathsOfKind(drafts, kind) {
        assert ActionOf(drafts[p]) in actions;
      }
    }
  }

  lemma {:induction false} NextAction(actions: seq<Action>, drafts: Drafts, k: nat)
    requires ListsDrafts(actions, drafts) && k < |actions|
    ensures forall kind: ActionKind :: |ActionPaths(actions[..k + 1], kind)|
                                       == |ActionPaths(actions[..k], kind)| + if kind == actions[k].kind then 1 else 0
  {
    ActionOrder();
    forall i | 0 <= i < k
      ensures actions[i].relativePath != actions[k].relativePath
    {
      assert actions[i] in actions && actions[k] in actions && ActionBefore(actions[i], actions[k]);
    }
    forall kind: ActionKind
      ensures |ActionPaths(actions[..k + 1], kind)| == |ActionPaths(actions[..k], kind)|
              + if kind == actions[k].kind then 1 else 0
    {
      AddedActionPath(actions, k, kind);
    }
  }

  lemma {:induction false} AddedActionPath(actions: seq<Action>, k: nat, kind: ActionKind)
    requires k < |actions| && forall i :: 0 <= i < k ==> actions[i].relativePath != actions[k].relativePath
    ensures |ActionPaths(actions[..k + 1], kind)| == |ActionPaths(actions[..k], kind)|
            + if kind == actions[k].kind then 1 else 0
  {
    assert actions[..k + 1][..k] == actions[..k];
    ActionPathsHave(actions[..k], kind, actions[k].relativePath);
  }
}
