/**
 When the batch executor's subtree deletions end. They always do while the catalog is complete,
 hence when deletions come first; with an arbitrary order of truthful changes they may not.
 */
module DeleteOrder {
  import opened Wrappers
  import opened RemoteCatalog
  import opened Forest
  import opened SubtreeWalk
  import opened Hydration
  import opened RootCatalogProjection
  import opened ChangeBatch
  import opened CatchUp

  lemma {:induction false} ChainSurvives(ps: Parents, x: Id, y: Id, root: Id, n: nat)
    requires Reaches(ps, y, root, n) && !Under(ps, y, x)
    ensures Reaches(WithoutSubtree(ps, x), y, root, n)
    decreases n
  {
    if n > 0 {
      UnderStep(ps, y, x);
      UnderCases(ps, y, x);
      ChainSurvives(ps, x, ps[y].value, root, n - 1);
    }
  }

  lemma {:induction false} DeleteStaysComplete(ps: Parents, root: Id, x: Id)
    requires Complete(ps, root)
    ensures Complete(WithoutSubtree(ps, x), root)
  {
    forall y | y in WithoutSubtree(ps, x)
      ensures StrictlyUnder(WithoutSubtree(ps, x), y, root)
    {
      var n: nat :| n > 0 && Reaches(ps, y, root, n);
      ChainSurvives(ps, x, y, root, n);
    }
  }

  lemma {:induction false} DeletesStayComplete(ps: Parents, root: Id, ms: seq<Mutation>)
    requires Complete(ps, root) && root !in ps
    requires forall i :: 0 <= i < |ms| ==> ms[i].DeleteSubtreeMutation?
    ensures Complete(Replay(ps, ms), root) && root !in Replay(ps, ms)
    decreases |ms|
  {
    if ms != [] {
      var n := |ms| - 1;
      DeletesStayComplete(ps, root, ms[..n]);
      DeleteStaysComplete(Replay(ps, ms[..n]), root, ms[n].remoteId);
    }
  }

  /** A change that can only add or move items. */
  predicate MayUpsert(provider: Provider, change: RemoteChange) {
    change.Upsert? && !change.item.trashed && provider.membership(change.item) == Ok(Descendant)
  }

  /** A change that deletes the subtree of its id if that is catalogued. */
  predicate MayDelete(provider: Provider, root: Id, change: RemoteChange) {
    var membership := MembershipOf(provider, root, change);
    || membership == Ok(UnresolvedDelete) || membership == Ok(Outside)
    || (membership == Ok(Descendant) && change.Upsert? && change.item.trashed)
  }

  /** No change that may upsert comes before one that may delete: membership answers are all it takes to see. */
  predicate DeletionsFirst(provider: Provider, root: Id, changes: seq<RemoteChange>) {
    forall i, j :: 0 <= i < j < |changes| ==>
        !(MayUpsert(provider, changes[i]) && MayDelete(provider, root, changes[j]))
  }

  lemma {:induction false} OnlyUpsertsUpsert(provider: Provider, root: Id, ps: Parents, change: RemoteChange)
    requires !MayUpsert(provider, change) && Respond(provider, root, ps, change).Ok?
    ensures forall m :: m in Respond(provider, root, ps, change).value ==> m.DeleteSubtreeMutation?
  {
  }

  lemma {:induction false} OnlyDeletesDelete(provider: Provider, root: Id, ps: Parents, change: RemoteChange)
    requires Deletes(provider, root, ps, change)
    ensures MayDelete(provider, root, change)
  {
  }

  lemma {:induction false} WithoutUpsertsOnlyDeletes(provider: Provider, root: Id, ps: Parents,
                                                     changes: seq<RemoteChange>)
    requires forall i :: 0 <= i < |changes| ==> !MayUpsert(provider, changes[i])
    requires BatchMutations(provider, root, ps, changes).Ok?
    ensures forall m :: m in BatchMutations(provider, root, ps, changes).value ==> m.DeleteSubtreeMutation?
    decreases |changes|
  {
    if changes != [] {
      var n := |changes| - 1;
      WithoutUpsertsOnlyDeletes(provider, root, ps, changes[..n]);
      var before := BatchMutations(provider, root, ps, changes[..n]).value;
      OnlyUpsertsUpsert(provider, root, Replay(ps, before), changes[n]);
    }
  }

  /** A batch whose deletions come first never deletes on a cycle, so its execution ends. */
  lemma {:induction false} DeletionsFirstIsSafe(provider: Provider, root: Id, ps: Parents, changes: seq<RemoteChange>)
    requires Complete(ps, root) && root !in ps && DeletionsFirst(provider, root, changes)
    ensures DeletesOffCycle(provider, root, ps, changes)
  {
    forall k | 0 <= k < |changes|
      ensures DeleteOffCycleAt(provider, root, ps, changes, k)
    {
      var before := BatchMutations(provider, root, ps, changes[..k]);
      if before.Ok? && Deletes(provider, root, Replay(ps, before.value), changes[k]) {
        OnlyDeletesDelete(provider, root, Replay(ps, before.value), changes[k]);
        WithoutUpsertsOnlyDeletes(provider, root, ps, changes[..k]);
        DeletesStayComplete(ps, root, before.value);
        CompleteHasNoCycle(Replay(ps, before.value), root, ChangeId(changes[k]));
      }
    }
  }

  /** The changes that may delete, in their order, and then the others. */
  function DeletionsPutFirst(provider: Provider, root: Id, changes: seq<RemoteChange>): seq<RemoteChange> {
    Chosen(provider, root, changes, true) + Chosen(provider, root, changes, false)
  }

  function Chosen(provider: Provider, root: Id, changes: seq<RemoteChange>, deleting: bool): seq<RemoteChange> {
    if changes == [] then []
    else
      var last := changes[|changes| - 1];
      Chosen(provider, root, changes[..|changes| - 1], deleting)
      + if MayDelete(provider, root, last) == deleting then [last] else []
  }

  lemma {:induction false} ChosenMembers(provider: Provider, root: Id, changes: seq<RemoteChange>, deleting: bool)
    ensures forall c :: c in Chosen(provider, root, changes, deleting)
                        <==> c in changes && MayDelete(provider, root, c) == deleting
    decreases |changes|
  {
    if changes != [] {
      var n := |changes| - 1;
      ChosenMembers(provider, root, changes[..n], deleting);
      assert changes == changes[..n] + [changes[n]];
    }
  }

  lemma {:induction false} ChosenTogether(provider: Provider, root: Id, changes: seq<RemoteChange>)
    ensures multiset(Chosen(provider, root, changes, true)) + multiset(Chosen(provider, root, changes, false))
            == multiset(changes)
    decreases |changes|
  {
    if changes != [] {
      var n := |changes| - 1;
      ChosenTogether(provider, root, changes[..n]);
      assert changes == changes[..n] + [changes[n]];
    }
  }

  /**
   Putting the deletions first repairs every truthful batch: it stays a truthful batch for the same
   difference, it never deletes on a cycle, and it leads to the same subtree.
   */
  lemma {:induction false} ReorderingRepairs(provider: Provider, before: World, now: World, root: Id,
                                             changes: seq<RemoteChange>)
    requires IsForest(before, root) && IsForest(now, root) && AnswersTruly(provider, now, root)
    requires MentionsDifferences(before, now, changes)
    requires forall i :: 0 <= i < |changes| ==> ReportsChange(now, root, changes[i])
    ensures var reordered := DeletionsPutFirst(provider, root, changes);
            && multiset(reordered) == multiset(changes)
            && DeletesOffCycle(provider, root, SubtreeOf(before, root), reordered)
            && var ms := BatchMutations(provider, root, SubtreeOf(before, root), reordered);
               if ms.Err? then ms.error == ProviderFailed && !NeverFails(provider, now, root)
               else Replay(SubtreeOf(before, root), ms.value) == SubtreeOf(now, root)
  {
    var reordered := DeletionsPutFirst(provider, root, changes);
    ReorderedIsTruthful(provider, before, now, root, changes);
    SubtreeIsComplete(before, root);
    ReorderedHasDeletionsFirst(provider, root, changes);
    DeletionsFirstIsSafe(provider, root, SubtreeOf(before, root), reordered);
    BatchCatchesUp(provider, before, now, root, reordered);
  }

  lemma {:induction false} ReorderedHasDeletionsFirst(provider: Provider, root: Id, changes: seq<RemoteChange>)
    ensures DeletionsFirst(provider, root, DeletionsPutFirst(provider, root, changes))
  {
    var first, rest := Chosen(provider, root, changes, true), Chosen(provider, root, changes, false);
    var reordered := DeletionsPutFirst(provider, root, changes);
    ChosenMembers(provider, root, changes, true);
    ChosenMembers(provider, root, changes, false);
    forall i, j | 0 <= i < j < |reordered|
      ensures !(MayUpsert(provider, reordered[i]) && MayDelete(provider, root, reordered[j]))
    {
      if i < |first| {
        assert reordered[i] in first;
      } else {
        assert reordered[j] in rest;
      }
    }
  }

  lemma {:induction false} ReorderedIsTruthful(provider: Provider, before: World, now: World, root: Id,
                                               changes: seq<RemoteChange>)
    requires MentionsDifferences(before, now, changes)
    requires forall i :: 0 <= i < |changes| ==> ReportsChange(now, root, changes[i])
    ensures multiset(DeletionsPutFirst(provider, root, changes)) == multiset(changes)
    ensures MentionsDifferences(before, now, DeletionsPutFirst(provider, root, changes))
    ensures forall i :: 0 <= i < |DeletionsPutFirst(provider, root, changes)| ==>
              ReportsChange(now, root, DeletionsPutFirst(provider, root, changes)[i])
  {
    var reordered := DeletionsPutFirst(provider, root, changes);
    ChosenTogether(provider, root, changes);
    assert forall i :: 0 <= i < |reordered| ==> reordered[i] in multiset(changes);
    forall x | x in ChangedIds(changes)
      ensures x in ChangedIds(reordered)
    {
      var i :| 0 <= i < |changes| && ChangeId(changes[i]) == x;
      assert changes[i] in multiset(reordered);
      var j :| 0 <= j < |reordered| && reordered[j] == changes[i];
    }
  }

  function Directory(id: Id, parent: Id): RemoteItem {
    RemoteItem(id, Some(parent), "n", Folder, None, None, false)
  }

  /** Four distinct ids for the example: `d` holds `x` holds `c`; then `c` holds `d` and `x` is gone. */
  datatype Example = Example(root: Id, d: Id, x: Id, c: Id) {
    predicate Distinct() {
      root != d && root != x && root != c && d != x && d != c && x != c
      && !Blank(d) && !Blank(x) && !Blank(c)
    }

    function Before(): World {
      map[d := Directory(d, root), x := Directory(x, d), c := Directory(c, x)]
    }

    function Now(): World {
      map[c := Directory(c, root), d := Directory(d, c)]
    }

    function Changes(): seq<RemoteChange> {
      [Upsert(Directory(d, c)), Delete(x), Upsert(Directory(c, root))]
    }

    function Answers(): Provider {
      Provider(
        (item: RemoteItem) =>
          Ok(if item.remoteId == root then Root else if item.remoteId in {c, d} then Descendant else Outside),
        (item: RemoteItem) => Ok(if item.remoteId == c then [Directory(c, root), Directory(d, c)] else [item]),
        Ok(root))
    }

    /** The catalog when `x` is to be deleted: `d` hangs below `c`, `c` below `x`, and `x` below `d`. */
    function Halfway(): Parents {
      map[d := Some(c), x := Some(d), c := Some(x)]
    }
  }

  /** A map whose parents have smaller rank has no cycle. */
  lemma {:induction false} RankDescends(ps: Parents, rank: map<Id, nat>, y: Id, x: Id, n: nat)
    requires forall c :: c in ps ==> c in rank
    requires forall c :: c in ps && ps[c].Some? && ps[c].value in rank ==> rank[ps[c].value] < rank[c]
    requires n > 0 && Reaches(ps, y, x, n) && x in rank && y in rank
    ensures rank[x] < rank[y]
    decreases n
  {
    if n > 1 {
      assert ps[y].value in ps;
      RankDescends(ps, rank, ps[y].value, x, n - 1);
    }
  }

  lemma {:induction false} RankedIsForest(w: World, root: Id, rank: map<Id, nat>)
    requires forall x :: x in w ==> x in rank && w[x].remoteId == x && Usable(w[x]) && w[x].kind.Folder?
    requires forall x :: x in w && w[x].parentRemoteId.Some? && w[x].parentRemoteId.value in rank
                         ==> rank[w[x].parentRemoteId.value] < rank[x]
    requires root !in w
    ensures IsForest(w, root)
  {
    forall x | x in w
      ensures !OnCycle(Links(w), x)
    {
      if OnCycle(Links(w), x) {
        var k: nat :| k > 0 && Reaches(Links(w), x, x, k);
        RankDescends(Links(w), rank, x, x, k);
      }
    }
  }

  lemma {:induction false} BeforeIsForest(e: Example)
    requires e.Distinct()
    ensures IsForest(e.Before(), e.root)
    ensures SubtreeOf(e.Before(), e.root) == Links(e.Before())
  {
    RankedIsForest(e.Before(), e.root, map[e.d := 1, e.x := 2, e.c := 3]);
    BeforeIsUnderRoot(e);
  }

  lemma {:induction false} BeforeIsUnderRoot(e: Example)
    requires e.Distinct()
    ensures forall y :: y in e.Before() ==> InSubtree(e.Before(), e.root, y)
  {
    var ps := Links(e.Before());
    assert Reaches(ps, e.root, e.root, 0);
    assert Reaches(ps, e.d, e.root, 1);
    assert Reaches(ps, e.x, e.root, 2);
    assert Reaches(ps, e.c, e.root, 3);
  }

  lemma {:induction false} NowIsForest(e: Example)
    requires e.Distinct()
    ensures IsForest(e.Now(), e.root)
    ensures InSubtree(e.Now(), e.root, e.d) && InSubtree(e.Now(), e.root, e.c)
    ensures forall y :: Under(Links(e.Now()), y, e.c) <==> y == e.c || y == e.d
    ensures forall y :: Under(Links(e.Now()), y, e.d) <==> y == e.d
  {
    var ranks: map<Id, nat> := map[e.c := 1, e.d := 2];
    RankedIsForest(e.Now(), e.root, ranks);
    var ps := Links(e.Now());
    assert Reaches(ps, e.root, e.root, 0);
    assert Reaches(ps, e.c, e.root, 1);
    assert Reaches(ps, e.d, e.root, 2);
    assert Reaches(ps, e.d, e.c, 1);
    if k: nat :| k > 0 && Reaches(ps, e.c, e.d, k) {
      RankDescends(ps, ranks, e.c, e.d, k);
    }
    forall y
      ensures Under(ps, y, e.c) <==> y == e.c || y == e.d
      ensures Under(ps, y, e.d) <==> y == e.d
    {
      UnderCases(ps, y, e.c);
      UnderCases(ps, y, e.d);
    }
  }

  lemma {:induction false} ExampleAnswers(e: Example)
    requires e.Distinct()
    ensures AnswersFrom(e.Answers(), e.Now(), e.root)
  {
    NowIsForest(e);
    var w := e.Now();
    assert HydratesFrom(w, e.c, [w[e.c], w[e.d]]) by {
      var items := [w[e.c], w[e.d]];
      assert Ids(items) == {items[0].remoteId, items[1].remoteId};
    }
    assert HydratesFrom(w, e.d, [w[e.d]]) by {
      var items := [w[e.d]];
      assert Ids(items) == {items[0].remoteId};
    }
  }

  lemma {:induction false} ExampleMentions(e: Example)
    requires e.Distinct()
    ensures MentionsDifferences(e.Before(), e.Now(), e.Changes())
    ensures forall k :: 0 <= k < |e.Changes()| ==> ReportsChange(e.Now(), e.root, e.Changes()[k])
  {
    var changes := e.Changes();
    assert ChangeId(changes[0]) == e.d && ChangeId(changes[1]) == e.x && ChangeId(changes[2]) == e.c;
    assert {e.d, e.x, e.c} <= ChangedIds(changes);
  }

  lemma {:induction false} HalfwayIsCyclic(e: Example)
    requires e.Distinct()
    ensures OnCycle(e.Halfway(), e.x)
  {
    assert Reaches(e.Halfway(), e.x, e.x, 0);
    assert Reaches(e.Halfway(), e.c, e.x, 1);
    assert Reaches(e.Halfway(), e.d, e.x, 2);
    assert Reaches(e.Halfway(), e.x, e.x, 3);
  }

  lemma {:induction false} FirstChangeLeadsHalfway(e: Example, s0: Parents)
    requires e.Distinct() && s0 == Links(e.Before())
    ensures BatchMutations(e.Answers(), e.root, s0, e.Changes()[..1]) == Ok([UpsertMutation(Directory(e.d, e.c))])
    ensures Replay(s0, [UpsertMutation(Directory(e.d, e.c))]) == e.Halfway()
  {
    var item := Directory(e.d, e.c);
    PlainResponse(e.Answers(), e.root, s0, item);
    assert e.Changes()[..1] == [Upsert(item)];
    SingleChange(e.Answers(), e.root, s0, Upsert(item));
  }

  lemma {:induction false} SecondChangeDeletesOnCycle(e: Example, s0: Parents)
    requires e.Distinct() && s0 == Links(e.Before())
    ensures !DeleteOffCycleAt(e.Answers(), e.root, s0, e.Changes(), 1)
  {
    FirstChangeLeadsHalfway(e, s0);
    HalfwayIsCyclic(e);
    assert Deletes(e.Answers(), e.root, e.Halfway(), e.Changes()[1]);
  }

  lemma {:induction false} SingleChange(provider: Provider, root: Id, ps: Parents, change: RemoteChange)
    requires Respond(provider, root, ps, change).Ok?
    ensures BatchMutations(provider, root, ps, [change]) == Respond(provider, root, ps, change)
  {
    assert [change][..0] == [];
    assert BatchMutations(provider, root, ps, []) == Ok([]);
    var now := Respond(provider, root, ps, change).value;
    assert [] + now == now;
  }

  /**
   Truthful changes can put a delete target on a parent cycle at its turn, and then no run of the
   collecting loop ever ends: here `d` has moved below `c` before `x`, still between them, goes.
   */
  lemma {:induction false} TruthfulBatchCanCycle(e: Example, run: seq<seq<Id>>, i: nat)
    requires e.Distinct()
    requires IsRun(e.Halfway(), e.x, run) && i < |run|
    ensures IsForest(e.Before(), e.root) && IsForest(e.Now(), e.root) && AnswersFrom(e.Answers(), e.Now(), e.root)
    ensures MentionsDifferences(e.Before(), e.Now(), e.Changes())
    ensures forall k :: 0 <= k < |e.Changes()| ==> ReportsChange(e.Now(), e.root, e.Changes()[k])
    ensures !DeleteOffCycleAt(e.Answers(), e.root, SubtreeOf(e.Before(), e.root), e.Changes(), 1)
    ensures run[i] != []
  {
    BeforeIsForest(e);
    NowIsForest(e);
    ExampleAnswers(e);
    ExampleMentions(e);
    SecondChangeDeletesOnCycle(e, SubtreeOf(e.Before(), e.root));
    HalfwayIsCyclic(e);
    OnCycleNeverDrains(e.Halfway(), e.x, run, i);
  }
}
