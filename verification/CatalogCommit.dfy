/**
 The durable catalog behind the projection: whole items, changed by the mutations of a batch in one transaction.
 A batch that reports a forest leaves exactly the items of the selected subtree, not only their parents.
 */
module CatalogCommit {
  import opened Wrappers
  import opened RemoteCatalog
  import opened Forest
  import opened SubtreeWalk
  import opened Hydration
  import opened RootCatalogProjection
  import opened ChangeBatch
  import opened CatchUp

  const I64_MAX := 0x7FFF_FFFF_FFFF_FFFF

  datatype CommitError = InvalidSyncRootCatalogMutation | NumericOverflow

  /** The row of an item: it has no modification time, and only live items have rows. */
  function Row(item: RemoteItem): RemoteItem {
    item.(modifiedUnixMs := None, trashed := false)
  }

  predicate IsRowFor(row: RemoteItem, item: RemoteItem) {
    && row.remoteId == item.remoteId && row.parentRemoteId == item.parentRemoteId && row.name == item.name
    && row.kind == item.kind && row.sizeBytes == item.sizeBytes
  }

  /** The rows of the selected root's part of the forest. */
  ghost function RowsOf(w: World, root: Id): World {
    map x | x in w && InSubtree(w, root, x) :: Row(w[x])
  }

  /** The recursive deletion: the id and everything below it. */
  ghost function WithoutRows(c: World, x: Id): World {
    map y | y in c && !Under(Links(c), y, x) :: c[y]
  }

  ghost function StoreOne(c: World, m: Mutation): World {
    match m
    case UpsertMutation(item) => c[item.remoteId := Row(item)]
    case DeleteSubtreeMutation(remoteId) => WithoutRows(c, remoteId)
  }

  /** All rows after the mutations, one after the other. */
  ghost function Store(c: World, ms: seq<Mutation>): World {
    if ms == [] then c else StoreOne(Store(c, ms[..|ms| - 1]), ms[|ms| - 1])
  }

  /** Live items under usable ids, with a size that fits a signed 64-bit number; deletions under usable ids. */
  predicate IsStorable(m: Mutation) {
    match m
    case UpsertMutation(item) =>
      && !item.trashed && !Blank(item.remoteId)
      && (item.sizeBytes.Some? ==> item.sizeBytes.value <= 0x7FFF_FFFF_FFFF_FFFF)
    case DeleteSubtreeMutation(remoteId) => !Blank(remoteId)
  }

  /** Why a mutation is refused; a row holds sizes up to 2^63 - 1. */
  function Refusal(m: Mutation): Option<CommitError> {
    match m
    case UpsertMutation(item) =>
      if item.trashed || Blank(item.remoteId) then Some(InvalidSyncRootCatalogMutation)
      else if item.sizeBytes.Some? && item.sizeBytes.value > I64_MAX then Some(NumericOverflow)
      else None
    case DeleteSubtreeMutation(remoteId) => if Blank(remoteId) then Some(InvalidSyncRootCatalogMutation) else None
  }

  function NewRows(c: World, subtree: set<Id>): set<Id> {
    set y | y in c && y !in subtree && c[y].parentRemoteId.Some? && c[y].parentRemoteId.value in subtree
  }

  /** The recursive query adds children until none is new, so unlike the projection's walk it ends on cycles too. */
  method DeleteRows(catalog: World, x: Id) returns (rows: World)
    ensures rows == WithoutRows(catalog, x)
  {
    var subtree := {x};
    assert Reaches(Links(catalog), x, x, 0);
    var more := NewRows(catalog, subtree);
    while more != {}
      invariant x in subtree && more == NewRows(catalog, subtree)
      invariant forall y :: y in subtree ==> Under(Links(catalog), y, x)
      decreases catalog.Keys - subtree
    {
      ChildrenAreUnder(catalog, x, subtree, more);
      ghost var y :| y in more;
      assert y in catalog.Keys - subtree && y !in catalog.Keys - (subtree + more);
      subtree := subtree + more;
      more := NewRows(catalog, subtree);
    }
    forall y | y in catalog && Under(Links(catalog), y, x)
      ensures y in subtree
    {
      assert forall z :: z in catalog ==> z !in NewRows(catalog, subtree);
      ClosedHoldsUnder(catalog, x, subtree, y);
    }
    rows := map y | y in catalog && y !in subtree :: catalog[y];
  }

  lemma {:induction false} ChildrenAreUnder(c: World, x: Id, subtree: set<Id>, more: set<Id>)
    requires forall y :: y in subtree ==> Under(Links(c), y, x)
    requires forall y :: y in more ==>
               y in c && c[y].parentRemoteId.Some? && c[y].parentRemoteId.value in subtree
    ensures forall y :: y in more ==> Under(Links(c), y, x)
  {
    forall y | y in more
      ensures Under(Links(c), y, x)
    {
      UnderStep(Links(c), y, x);
      UnderCases(Links(c), y, x);
    }
  }

  lemma {:induction false} ClosedHoldsUnder(c: World, x: Id, subtree: set<Id>, y: Id)
    requires x in subtree && Under(Links(c), y, x)
    requires forall z :: z in c && c[z].parentRemoteId.Some? && c[z].parentRemoteId.value in subtree ==> z in subtree
    ensures y in subtree
  {
    UnderCases(Links(c), y, x);
    if y != x {
      var n: nat :| n > 0 && Reaches(Links(c), y, x, n);
      ClosedSetHoldsAll(Links(c), x, subtree, y, n);
    }
  }

  /** The transaction: all mutations, or none and the error of the first that is refused. */
  method CommitMutations(catalog: World, ms: seq<Mutation>) returns (r: Result<World, CommitError>)
    ensures r.Ok? <==> forall i :: 0 <= i < |ms| ==> IsStorable(ms[i])
    ensures r.Ok? ==> r.value == Store(catalog, ms)
    ensures r.Err? ==> exists i :: 0 <= i < |ms| && Refusal(ms[i]) == Some(r.error)
                                   && forall j :: 0 <= j < i ==> Refusal(ms[j]).None?
  {
    assert forall m :: IsStorable(m) <==> Refusal(m).None?;
    var rows := catalog;
    for k := 0 to |ms|
      invariant rows == Store(catalog, ms[..k])
      invariant forall i :: 0 <= i < k ==> Refusal(ms[i]).None?
    {
      var refusal := Refusal(ms[k]);
      if refusal.Some? {
        return Err(refusal.value);
      }
      assert ms[..k + 1][..k] == ms[..k];
      match ms[k] {
        case UpsertMutation(item) =>
          rows := rows[item.remoteId := Row(item)];
        case DeleteSubtreeMutation(remoteId) =>
          rows := DeleteRows(rows, remoteId);
      }
    }
    assert ms[..|ms|] == ms;
    return Ok(rows);
  }

  /** The projection replays, on parents only, what the rows go through. */
  lemma {:induction false} StoreReplays(c: World, ms: seq<Mutation>)
    ensures Links(Store(c, ms)) == Replay(Links(c), ms)
    decreases |ms|
  {
    if ms != [] {
      var n := |ms| - 1;
      StoreReplays(c, ms[..n]);
    }
  }

  lemma {:induction false} StoreConcat(c: World, ms: seq<Mutation>, ns: seq<Mutation>)
    ensures Store(c, ms + ns) == Store(Store(c, ms), ns)
    decreases |ns|
  {
    if ns == [] {
      assert ms + ns == ms;
    } else {
      var n := |ns| - 1;
      assert (ms + ns)[..|ms + ns| - 1] == ms + ns[..n];
      StoreConcat(c, ms, ns[..n]);
    }
  }

  /** An upsert of what the forest holds. */
  predicate IsTrueMutation(w: World, m: Mutation) {
    m.UpsertMutation? ==> m.item.remoteId in w && m.item == w[m.item.remoteId]
  }

  predicate AllTrue(w: World, ms: seq<Mutation>) {
    forall m :: m in ms ==> IsTrueMutation(w, m)
  }

  ghost predicate Upserted(ms: seq<Mutation>, y: Id) {
    exists m :: m in ms && m.UpsertMutation? && m.item.remoteId == y
  }

  /** A row after true mutations is an old one, or that of the forest; one that was upserted is that of the forest. */
  lemma {:induction false} StoredRow(w: World, c: World, ms: seq<Mutation>, y: Id)
    requires AllTrue(w, ms) && y in Store(c, ms)
    ensures (y in c && Store(c, ms)[y] == c[y]) || (y in w && Store(c, ms)[y] == Row(w[y]))
    ensures Upserted(ms, y) ==> y in w && Store(c, ms)[y] == Row(w[y])
    decreases |ms|
  {
    if ms != [] {
      var n := |ms| - 1;
      var m := ms[n];
      assert m in ms && ms == ms[..n] + [m];
      if !(m.UpsertMutation? && m.item.remoteId == y) {
        StoredRow(w, c, ms[..n], y);
      }
    }
  }

  /** Every row that is not still to come is the row of the forest. */
  ghost predicate Settled(c: World, w: World, rest: set<Id>) {
    forall y :: y in c && y !in rest ==> y in w && c[y] == Row(w[y])
  }

  lemma {:induction false} UpsertsAreTrue(w: World, x: Id, items: seq<RemoteItem>)
    requires x in w && w[x].remoteId == x && HydratesFrom(w, x, items)
    ensures AllTrue(w, Upserts(items)) && Upserted(Upserts(items), x)
  {
    assert Upserts(items)[0] == UpsertMutation(items[0]) && Upserts(items)[0] in Upserts(items);
  }

  /** What one reported change emits is true, and settles its id. */
  lemma {:induction false} ResponseIsTrue(provider: Provider, w: World, root: Id, s: Parents, change: RemoteChange)
    requires IsForest(w, root) && AnswersTruly(provider, w, root) && ReportsChange(w, root, change)
    requires Respond(provider, root, s, change).Ok?
    ensures AllTrue(w, Respond(provider, root, s, change).value)
    ensures InSubtree(w, root, ChangeId(change))
            ==> Upserted(Respond(provider, root, s, change).value, ChangeId(change))
  {
    var x, ms := ChangeId(change), Respond(provider, root, s, change);
    InSubtreeIsNotRoot(w, root);
    if change.Upsert? {
      assert MembershipAnswer(w, root, change.item, provider.membership(change.item));
    }
    if InSubtree(w, root, x) {
      if change.item.kind.Folder? && x !in s {
        assert HydrationAnswer(w, x, provider.hydrate(change.item));
        UpsertsAreTrue(w, x, provider.hydrate(change.item).value);
      } else {
        assert ms == Ok([UpsertMutation(change.item)]);
      }
    } else {
      assert ms.value == [] || ms.value == [DeleteSubtreeMutation(x)];
    }
  }

  lemma {:induction false} InSubtreeIsNotRoot(w: World, root: Id)
    requires root !in w
    ensures !InSubtree(w, root, root)
  {
  }

  /** One reported change settles its row. */
  lemma {:induction false} StepSettles(provider: Provider, w: World, root: Id, c: World, change: RemoteChange,
                                       rest: set<Id>)
    requires IsForest(w, root) && AnswersTruly(provider, w, root) && ReportsChange(w, root, change)
    requires Settled(c, w, rest + {ChangeId(change)}) && CatchingUp(Links(c), w, root, rest + {ChangeId(change)})
    requires Respond(provider, root, Links(c), change).Ok?
    ensures Settled(Store(c, Respond(provider, root, Links(c), change).value), w, rest)
  {
    var x, ms := ChangeId(change), Respond(provider, root, Links(c), change).value;
    ResponseIsTrue(provider, w, root, Links(c), change);
    forall y | y in Store(c, ms) && y !in rest
      ensures y in w && Store(c, ms)[y] == Row(w[y])
    {
      StoredRow(w, c, ms, y);
      if y == x && !InSubtree(w, root, x) {
        UnwantedIsGone(provider, w, root, c, change);
      }
    }
  }

  lemma {:induction false} UnwantedIsGone(provider: Provider, w: World, root: Id, c: World, change: RemoteChange)
    requires IsForest(w, root) && AnswersTruly(provider, w, root) && ReportsChange(w, root, change)
    requires root !in c && !InSubtree(w, root, ChangeId(change))
    requires Respond(provider, root, Links(c), change).Ok?
    ensures ChangeId(change) !in Store(c, Respond(provider, root, Links(c), change).value)
  {
    var x, ms := ChangeId(change), Respond(provider, root, Links(c), change).value;
    if change.Upsert? {
      assert MembershipAnswer(w, root, change.item, provider.membership(change.item));
    }
    if x in c {
      assert ms == [DeleteSubtreeMutation(x)];
      assert ms[..0] == [];
      UnderCases(Links(c), x, x);
    } else {
      assert ms == [];
    }
  }

  /** Every id that is live in only one forest, or has another row, is mentioned. */
  ghost predicate MentionsRowDifferences(before: World, now: World, changes: seq<RemoteChange>) {
    forall x :: RowDiffers(before, now, x) ==> x in ChangedIds(changes)
  }

  predicate RowDiffers(before: World, now: World, x: Id) {
    if x in before && x in now then !IsRowFor(Row(before[x]), now[x]) else x in before || x in now
  }

  lemma {:induction false} RowsShowDifferences(before: World, now: World, changes: seq<RemoteChange>)
    requires MentionsRowDifferences(before, now, changes)
    ensures MentionsDifferences(before, now, changes)
  {
    forall x | Differs(before, now, x)
      ensures x in ChangedIds(changes)
    {
      assert RowDiffers(before, now, x);
    }
  }

  lemma {:induction false} PrefixSettles(provider: Provider, before: World, now: World, root: Id,
                                         changes: seq<RemoteChange>, k: nat)
    requires IsForest(before, root) && IsForest(now, root) && AnswersTruly(provider, now, root)
    requires MentionsRowDifferences(before, now, changes) && k <= |changes|
    requires forall i :: 0 <= i < |changes| ==> ReportsChange(now, root, changes[i])
    requires BatchMutations(provider, root, SubtreeOf(before, root), changes[..k]).Ok?
    ensures Settled(Store(RowsOf(before, root),
                          BatchMutations(provider, root, SubtreeOf(before, root), changes[..k]).value),
                    now, ChangedIds(changes[k..]))
    decreases k
  {
    var c0, s0 := RowsOf(before, root), SubtreeOf(before, root);
    RowsShowDifferences(before, now, changes);
    assert Links(c0) == s0;
    if k == 0 {
      assert changes[0..] == changes;
      RowsStartSettled(before, now, root, changes);
    } else {
      assert changes[..k][..k - 1] == changes[..k - 1];
      var done, change := BatchMutations(provider, root, s0, changes[..k - 1]).value, changes[k - 1];
      PrefixSettles(provider, before, now, root, changes, k - 1);
      PrefixCatchesUp(provider, before, now, root, changes, k - 1);
      RemainingIds(changes, k - 1);
      StoreReplays(c0, done);
      StepSettles(provider, now, root, Store(c0, done), change, ChangedIds(changes[k..]));
      StoreConcat(c0, done, Respond(provider, root, Replay(s0, done), change).value);
    }
  }

  lemma {:induction false} RowsStartSettled(before: World, now: World, root: Id, changes: seq<RemoteChange>)
    requires MentionsRowDifferences(before, now, changes)
    ensures Settled(RowsOf(before, root), now, ChangedIds(changes))
  {
    forall y | y in RowsOf(before, root) && y !in ChangedIds(changes)
      ensures y in now && RowsOf(before, root)[y] == Row(now[y])
    {
      assert !RowDiffers(before, now, y);
    }
  }

  /**
   Catch-up of whole rows: a truthful batch that mentions every row that differs, in any order and with repeats,
   leaves the rows of the new subtree, with their parents, names, kinds and sizes, and no others.
   */
  lemma {:induction false} BatchStoresRows(provider: Provider, before: World, now: World, root: Id,
                                           changes: seq<RemoteChange>)
    requires IsForest(before, root) && IsForest(now, root) && AnswersTruly(provider, now, root)
    requires MentionsRowDifferences(before, now, changes)
    requires forall i :: 0 <= i < |changes| ==> ReportsChange(now, root, changes[i])
    ensures var ms := BatchMutations(provider, root, SubtreeOf(before, root), changes);
            if ms.Err? then ms.error == ProviderFailed && !NeverFails(provider, now, root)
            else Store(RowsOf(before, root), ms.value) == RowsOf(now, root)
    ensures forall x :: x in RowsOf(now, root) <==> InSubtree(now, root, x)
    ensures forall x :: InSubtree(now, root, x) ==> IsRowFor(RowsOf(now, root)[x], now[x])
  {
    var n := |changes|;
    assert changes[..n] == changes && changes[n..] == [];
    RowsShowDifferences(before, now, changes);
    BatchCatchesUp(provider, before, now, root, changes);
    var ms := BatchMutations(provider, root, SubtreeOf(before, root), changes);
    if ms.Ok? {
      var c0 := RowsOf(before, root);
      PrefixSettles(provider, before, now, root, changes, n);
      assert ChangedIds([]) == {};
      StoreReplays(c0, ms.value);
      assert Links(c0) == SubtreeOf(before, root);
      SettledSubtreeIsRows(Store(c0, ms.value), now, root);
    }
  }

  lemma {:induction false} SettledSubtreeIsRows(c: World, w: World, root: Id)
    requires Settled(c, w, {}) && Links(c) == SubtreeOf(w, root)
    ensures c == RowsOf(w, root)
  {
    assert c.Keys == Links(c).Keys;
  }

  /** The mutations of such a batch are refused only for a size that no row can hold. */
  lemma {:induction false} TrueMutationsCommit(provider: Provider, before: World, now: World, root: Id,
                                               changes: seq<RemoteChange>)
    requires IsForest(now, root) && AnswersTruly(provider, now, root)
    requires forall i :: 0 <= i < |changes| ==> ReportsChange(now, root, changes[i]) && !Blank(ChangeId(changes[i]))
    requires BatchMutations(provider, root, SubtreeOf(before, root), changes).Ok?
    ensures var ms := BatchMutations(provider, root, SubtreeOf(before, root), changes).value;
            forall m :: m in ms ==> (Refusal(m).Some? ==> m.UpsertMutation? && Refusal(m) == Some(NumericOverflow))
    decreases |changes|
  {
    if changes != [] {
      var n := |changes| - 1;
      var s0 := SubtreeOf(before, root);
      TrueMutationsCommit(provider, before, now, root, changes[..n]);
      var s := Replay(s0, BatchMutations(provider, root, s0, changes[..n]).value);
      ResponseIsTrue(provider, now, root, s, changes[n]);
      ResponseIsUsable(provider, now, root, s, changes[n]);
    }
  }

  lemma {:induction false} ResponseIsUsable(provider: Provider, w: World, root: Id, s: Parents, change: RemoteChange)
    requires IsForest(w, root) && Respond(provider, root, s, change).Ok? && !Blank(ChangeId(change))
    requires AllTrue(w, Respond(provider, root, s, change).value)
    ensures forall m :: m in Respond(provider, root, s, change).value ==>
              (Refusal(m).Some? ==> m.UpsertMutation? && Refusal(m) == Some(NumericOverflow))
  {
    forall m | m in Respond(provider, root, s, change).value
      ensures m.DeleteSubtreeMutation? ==> m.remoteId == ChangeId(change)
      ensures m.UpsertMutation? ==> Usable(m.item)
    {
      assert IsTrueMutation(w, m);
    }
  }
}
