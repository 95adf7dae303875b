/**
 Catch-up: a change batch read from a live remote forest moves the projection of one
 forest's selected subtree to exactly the other forest's selected subtree.
 */
module CatchUp {
  import opened Wrappers
  import opened RemoteCatalog
  import opened Forest
  import opened SubtreeWalk
  import opened Hydration
  import opened RootCatalogProjection
  import opened ChangeBatch

  ghost predicate IsForest(w: World, root: Id) {
    && root !in w
    && (forall x :: x in w ==> w[x].remoteId == x && Usable(w[x]))
    && (forall x :: x in w && w[x].parentRemoteId.Some? && w[x].parentRemoteId.value in w
                    ==> w[w[x].parentRemoteId.value].kind.Folder?)
    && (forall x :: x in w ==> !OnCycle(Links(w), x))
  }

  ghost predicate InSubtree(w: World, root: Id, x: Id) {
    x in w && StrictlyUnder(Links(w), x, root)
  }

  /** The parent map of the selected root's part of the forest. */
  ghost function SubtreeOf(w: World, root: Id): Parents {
    map x | x in w && InSubtree(w, root, x) :: w[x].parentRemoteId
  }

  /** `items` is the folder `x` followed by everything below it in `w`, each once. */
  ghost predicate HydratesFrom(w: World, x: Id, items: seq<RemoteItem>)
    requires x in w
  {
    && items != [] && items[0] == w[x] && UniqueIds(items)
    && (forall y :: y in Ids(items) <==> y in w && Under(Links(w), y, x))
    && (forall i :: 0 <= i < |items| ==> items[i].remoteId in w && items[i] == w[items[i].remoteId])
  }

  /** The change states what `w` says about its id; the root may only change as the root. */
  predicate ReportsChange(w: World, root: Id, change: RemoteChange) {
    match change
    case Delete(remoteId) => remoteId !in w
    case Upsert(item) =>
      item.remoteId == root
      || (if item.trashed then item.remoteId !in w else item.remoteId in w && item == w[item.remoteId])
  }

  /** Every answer the provider gives is true of `w`; it may also fail to give one. */
  ghost predicate AnswersTruly(provider: Provider, w: World, root: Id) {
    && RootAnswer(root, provider.rootIdNow)
    && (forall item: RemoteItem :: ReportsChange(w, root, Upsert(item)) ==>
          MembershipAnswer(w, root, item, provider.membership(item)))
    && (forall x :: InSubtree(w, root, x) && w[x].kind.Folder? ==> HydrationAnswer(w, x, provider.hydrate(w[x])))
  }

  /** Every request about `w` is answered. */
  ghost predicate NeverFails(provider: Provider, w: World, root: Id) {
    && provider.rootIdNow.Ok?
    && (forall item: RemoteItem :: ReportsChange(w, root, Upsert(item)) ==> provider.membership(item).Ok?)
    && (forall x :: InSubtree(w, root, x) && w[x].kind.Folder? ==> provider.hydrate(w[x]).Ok?)
  }

  /** Membership and hydration answers taken from `w`, and a root that keeps its identity. */
  ghost predicate AnswersFrom(provider: Provider, w: World, root: Id) {
    AnswersTruly(provider, w, root) && NeverFails(provider, w, root)
  }

  predicate RootAnswer(root: Id, r: Result<Id, BatchError>) {
    r == Ok(root) || r == Err(ProviderFailed)
  }

  ghost predicate MembershipAnswer(w: World, root: Id, item: RemoteItem, r: Result<Membership, BatchError>) {
    if r.Err? then r.error == ProviderFailed
    else if item.remoteId == root then r.value == Root
    else if item.trashed then r.value in {Descendant, Outside}
    else r.value == if InSubtree(w, root, item.remoteId) then Descendant else Outside
  }

  ghost predicate HydrationAnswer(w: World, x: Id, r: Result<seq<RemoteItem>, BatchError>)
    requires x in w
  {
    if r.Err? then r.error == ProviderFailed else HydratesFrom(w, x, r.value)
  }

  /** Every id that is live in only one forest, or has another parent, is mentioned. */
  ghost predicate MentionsDifferences(before: World, now: World, changes: seq<RemoteChange>) {
    forall x :: Differs(before, now, x) ==> x in ChangedIds(changes)
  }

  predicate Differs(before: World, now: World, x: Id) {
    if x in before && x in now then before[x].parentRemoteId != now[x].parentRemoteId
    else x in before || x in now
  }

  function ChangedIds(changes: seq<RemoteChange>): set<Id> {
    set i | 0 <= i < |changes| :: ChangeId(changes[i])
  }

  /**
   The catalog `s` on its way to the subtree of `w`, with the ids in `rest` still to come.
   An id that is settled has its final parent; a settled id that is missing waits for a missing
   parent; a settled id that must go hangs below a catalogued parent that must go.
   */
  ghost predicate CatchingUp(s: Parents, w: World, root: Id, rest: set<Id>) {
    && root !in s
    && (forall y :: y in s && y !in rest ==> y in w && s[y] == w[y].parentRemoteId)
    && (forall y {:trigger MissingBelowMissing(s, w, root, y)} ::
          InSubtree(w, root, y) && y !in s && y !in rest ==> MissingBelowMissing(s, w, root, y))
    && (forall y {:trigger HasParentIn(s, y)} :: y in s && y !in rest && !InSubtree(w, root, y) ==> HasParentIn(s, y))
  }

  predicate HasParentIn(s: Parents, y: Id)
    requires y in s
  {
    s[y].Some? && s[y].value in s
  }

  ghost predicate MissingBelowMissing(s: Parents, w: World, root: Id, y: Id)
    requires y in w
  {
    var p := w[y].parentRemoteId;
    p.Some? && InSubtree(w, root, p.value) && p.value !in s
  }

  lemma {:induction false} InSubtreeStep(w: World, root: Id, y: Id)
    requires IsForest(w, root) && y in w
    ensures InSubtree(w, root, y) <==>
            w[y].parentRemoteId.Some?
              && (w[y].parentRemoteId.value == root || InSubtree(w, root, w[y].parentRemoteId.value))
    ensures !InSubtree(w, root, root)
  {
    var ps := Links(w);
    if ps[y].Some? {
      UnderStep(ps, y, root);
      UnderCases(ps, ps[y].value, root);
    }
    UnderCases(ps, y, root);
  }

  lemma {:induction false} StartsCatchingUp(before: World, now: World, root: Id, changes: seq<RemoteChange>)
    requires IsForest(before, root) && IsForest(now, root) && MentionsDifferences(before, now, changes)
    ensures CatchingUp(SubtreeOf(before, root), now, root, ChangedIds(changes))
  {
    var s, rest := SubtreeOf(before, root), ChangedIds(changes);
    forall y | y !in rest
      ensures y in s ==> y in now && s[y] == now[y].parentRemoteId
      ensures InSubtree(now, root, y) && y !in s ==> MissingBelowMissing(s, now, root, y)
      ensures y in s && !InSubtree(now, root, y) ==> HasParentIn(s, y)
    {
      assert !Differs(before, now, y);
      if y in before {
        InSubtreeStep(before, root, y);
        InSubtreeStep(now, root, y);
      }
    }
  }

  /** With nothing left to come, the catalog is the subtree. */
  lemma {:induction false} CaughtUp(s: Parents, w: World, root: Id)
    requires IsForest(w, root) && CatchingUp(s, w, root, {})
    ensures s == SubtreeOf(w, root)
  {
    forall y | InSubtree(w, root, y)
      ensures y in s
    {
      var n: nat :| n > 0 && Reaches(Links(w), y, root, n);
      NothingMissing(s, w, root, y, n);
    }
    forall y | y in s
      ensures InSubtree(w, root, y)
    {
      if !InSubtree(w, root, y) {
        NothingExtra(s, w, root, y, {});
      }
    }
  }

  lemma {:induction false} NothingMissing(s: Parents, w: World, root: Id, y: Id, n: nat)
    requires IsForest(w, root) && CatchingUp(s, w, root, {})
    requires n > 0 && InSubtree(w, root, y) && Reaches(Links(w), y, root, n)
    ensures y in s
    decreases n
  {
    InSubtreeStep(w, root, y);
    assert y in s || MissingBelowMissing(s, w, root, y);
    var p := w[y].parentRemoteId.value;
    if p != root {
      NothingMissing(s, w, root, p, n - 1);
    }
  }

  /** Climbing from a catalogued item outside the subtree would go round for ever. */
  lemma {:induction false} NothingExtra(s: Parents, w: World, root: Id, y: Id, visited: set<Id>)
    requires IsForest(w, root) && CatchingUp(s, w, root, {})
    requires y in s && !InSubtree(w, root, y)
    requires visited <= s.Keys && forall v :: v in visited ==> StrictlyUnder(Links(w), v, y)
    ensures false
    decreases s.Keys - visited
  {
    var ps := Links(w);
    assert y in w && !OnCycle(ps, y);
    if y !in visited {
      InSubtreeStep(w, root, y);
      assert HasParentIn(s, y);
      var p := s[y].value;
      forall v | v in visited + {y}
        ensures StrictlyUnder(ps, v, p)
      {
        assert Reaches(ps, p, p, 0);
        assert Reaches(ps, y, p, 1);
        if v != y {
          var n: nat :| n > 0 && Reaches(ps, v, y, n);
          ReachesTrans(ps, v, y, p, n, 1);
        }
      }
      NothingExtra(s, w, root, p, visited + {y});
    }
  }

  /** Adding live subtree items with their live parents, closed under live children, keeps catching up. */
  lemma {:induction false} AddingKeeps(s: Parents, w: World, root: Id, rest: set<Id>, x: Id, added: set<Id>)
    requires IsForest(w, root) && CatchingUp(s, w, root, rest + {x})
    requires x in added && added <= w.Keys && forall y :: y in added ==> InSubtree(w, root, y)
    requires forall y :: y in w && w[y].parentRemoteId.Some? && w[y].parentRemoteId.value in added - s.Keys ==>
               y in added
    ensures CatchingUp(s + (map y | y in added :: w[y].parentRemoteId), w, root, rest)
  {
    var t := s + (map y | y in added :: w[y].parentRemoteId);
    InSubtreeStep(w, root, x);
    forall y | InSubtree(w, root, y) && y !in t && y !in rest
      ensures MissingBelowMissing(t, w, root, y)
    {
      assert MissingBelowMissing(s, w, root, y);
    }
    forall y | y in t && y !in rest && !InSubtree(w, root, y)
      ensures HasParentIn(t, y)
    {
      assert HasParentIn(s, y);
    }
  }

  /** Deleting the subtree of an item that must go keeps catching up. */
  lemma {:induction false} DeletingKeeps(s: Parents, w: World, root: Id, rest: set<Id>, x: Id)
    requires IsForest(w, root) && CatchingUp(s, w, root, rest + {x})
    requires x != root && !InSubtree(w, root, x)
    ensures CatchingUp(WithoutSubtree(s, x), w, root, rest)
  {
    var t := WithoutSubtree(s, x);
    UnderCases(s, x, x);
    forall y | InSubtree(w, root, y) && y !in t && y !in rest
      ensures MissingBelowMissing(t, w, root, y)
    {
      if y !in s {
        assert MissingBelowMissing(s, w, root, y);
      } else {
        InSubtreeStep(w, root, y);
        UnderCases(s, y, x);
        UnderStep(s, y, x);
        UnderCases(s, s[y].value, x);
      }
    }
    forall y | y in t && y !in rest && !InSubtree(w, root, y)
      ensures HasParentIn(t, y)
    {
      UnderCases(s, y, x);
      assert y != x && HasParentIn(s, y);
      UnderStep(s, y, x);
      UnderCases(s, y, x);
    }
  }

  lemma {:induction false} ReplayUpserts(ps: Parents, items: seq<RemoteItem>)
    ensures Replay(ps, Upserts(items)) == ps + ParentsOf(items)
    decreases |items|
  {
    if items != [] {
      var n := |items| - 1;
      ReplayUpserts(ps, items[..n]);
      assert Upserts(items)[..n] == Upserts(items[..n]);
    }
  }

  lemma {:induction false} TailIds(items: seq<RemoteItem>)
    requires items != [] && UniqueIds(items)
    ensures UniqueIds(items[1..]) && Ids(items[1..]) == Ids(items) - {items[0].remoteId}
  {
    var rest := items[1..];
    assert forall i :: 0 <= i < |rest| ==> rest[i] == items[i + 1];
    forall i | 0 < i < |items|
      ensures items[i].remoteId in Ids(rest) && items[i].remoteId != items[0].remoteId
    {
      assert items[i] == rest[i - 1];
    }
  }

  /** The listed links below the folder are the live links below it. */
  lemma {:induction false} ListedLinks(w: World, x: Id, items: seq<RemoteItem>)
    requires x in w && w[x].remoteId == x && HydratesFrom(w, x, items)
    ensures UniqueIds(items[1..])
    ensures ParentsOf(items[1..]) == map z | z in w && Under(Links(w), z, x) && z != x :: w[z].parentRemoteId
  {
    var rest := items[1..];
    TailIds(items);
    assert forall i :: 0 <= i < |rest| ==> rest[i] == items[i + 1];
    ParentsMatch(w, rest);
  }

  /** A hydration taken from the forest passes the check and lists the live parents. */
  lemma {:induction false} HonestHydrationPasses(w: World, root: Id, x: Id, items: seq<RemoteItem>)
    requires IsForest(w, root) && x in w && w[x].kind.Folder? && HydratesFrom(w, x, items)
    ensures IsWholeSubtree(w[x], items)
  {
    var ps := ParentsOf(items[1..]);
    ListedLinks(w, x, items);
    forall y | y in ps
      ensures StrictlyUnder(ps, y, x)
    {
      UnderCases(Links(w), y, x);
      var n: nat :| n > 0 && Reaches(Links(w), y, x, n);
      ChainWithin(w, x, ps, y, n);
    }
    assert Complete(ps, x);
  }

  lemma {:induction false} ParentsMatch(w: World, items: seq<RemoteItem>)
    requires UniqueIds(items) && forall i :: 0 <= i < |items| ==>
               items[i].remoteId in w && items[i] == w[items[i].remoteId]
    ensures ParentsOf(items) == map y | y in Ids(items) :: w[y].parentRemoteId
  {
    KeysOfParents(items);
    forall y | y in Ids(items)
      ensures y in w && ParentsOf(items)[y] == w[y].parentRemoteId
    {
      var i :| 0 <= i < |items| && items[i].remoteId == y;
      ParentAt(items, i);
    }
  }

  lemma {:induction false} ChainWithin(w: World, x: Id, ps: Parents, y: Id, n: nat)
    requires x in w && !OnCycle(Links(w), x) && Reaches(Links(w), y, x, n)
    requires ps == map z | z in w && Under(Links(w), z, x) && z != x :: w[z].parentRemoteId
    ensures Reaches(ps, y, x, n)
    decreases n
  {
    if n > 0 {
      ChainWithin(w, x, ps, w[y].parentRemoteId.value, n - 1);
      assert y != x;
    }
  }

  /** One reported change keeps the catalog catching up, and fails only when the provider does. */
  lemma {:induction false} StepKeeps(provider: Provider, w: World, root: Id, s: Parents, change: RemoteChange,
                                     rest: set<Id>)
    requires IsForest(w, root) && AnswersTruly(provider, w, root) && ReportsChange(w, root, change)
    requires CatchingUp(s, w, root, rest + {ChangeId(change)})
    ensures Respond(provider, root, s, change).Err? ==> Respond(provider, root, s, change).error == ProviderFailed
    ensures NeverFails(provider, w, root) ==> Respond(provider, root, s, change).Ok?
    ensures Respond(provider, root, s, change).Ok?
            ==> CatchingUp(Replay(s, Respond(provider, root, s, change).value), w, root, rest)
  {
    var x := ChangeId(change);
    var ms := Respond(provider, root, s, change);
    if change.Upsert? {
      assert MembershipAnswer(w, root, change.item, provider.membership(change.item));
      if provider.membership(change.item).Err? {
        return;
      }
    }
    if x == root {
      assert ms.Ok? ==> ms == Ok([]);
      RootIsSettled(s, w, root, rest);
    } else if InSubtree(w, root, x) {
      UpsertKeeps(provider, w, root, s, change.item, rest);
    } else if x in s {
      assert ms == Ok([DeleteSubtreeMutation(x)]);
      ReplaySingle(s, DeleteSubtreeMutation(x));
      DeletingKeeps(s, w, root, rest, x);
    } else {
      assert ms == Ok([]);
    }
  }

  lemma {:induction false} RootIsSettled(s: Parents, w: World, root: Id, rest: set<Id>)
    requires IsForest(w, root) && CatchingUp(s, w, root, rest + {root})
    ensures CatchingUp(s, w, root, rest)
  {}

  lemma {:induction false} HydratingResponse(provider: Provider, root: Id, s: Parents, item: RemoteItem)
    requires provider.membership(item) == Ok(Descendant) && item.kind.Folder? && !item.trashed && item.remoteId !in s
    requires provider.hydrate(item).Ok? && HydrationVerdict(item, provider.hydrate(item).value).Ok?
    ensures Respond(provider, root, s, Upsert(item)) == Ok(Upserts(provider.hydrate(item).value))
  {}

  lemma {:induction false} PlainResponse(provider: Provider, root: Id, s: Parents, item: RemoteItem)
    requires provider.membership(item) == Ok(Descendant) && !item.trashed
    requires item.kind.File? || item.remoteId in s
    ensures Respond(provider, root, s, Upsert(item)) == Ok([UpsertMutation(item)])
    ensures Replay(s, [UpsertMutation(item)]) == s[item.remoteId := item.parentRemoteId]
  {
    ReplaySingle(s, UpsertMutation(item));
  }

  lemma {:induction false} UpsertKeeps(provider: Provider, w: World, root: Id, s: Parents, item: RemoteItem,
                                       rest: set<Id>)
    requires IsForest(w, root) && AnswersTruly(provider, w, root) && ReportsChange(w, root, Upsert(item))
    requires InSubtree(w, root, item.remoteId) && CatchingUp(s, w, root, rest + {item.remoteId})
    requires provider.membership(item).Ok?
    ensures var ms := Respond(provider, root, s, Upsert(item));
            if ms.Err? then ms.error == ProviderFailed && !NeverFails(provider, w, root)
            else CatchingUp(Replay(s, ms.value), w, root, rest)
  {
    var x := item.remoteId;
    assert MembershipAnswer(w, root, item, provider.membership(item));
    if item.kind.Folder? && x !in s {
      assert HydrationAnswer(w, x, provider.hydrate(item));
      if provider.hydrate(item).Ok? {
        HydrationKeeps(w, root, s, x, provider.hydrate(item).value, rest);
        HydratingResponse(provider, root, s, item);
      }
    } else {
      PlainResponse(provider, root, s, item);
      PlainUpsertKeeps(w, root, s, x, rest);
    }
  }

  lemma {:induction false} PlainUpsertKeeps(w: World, root: Id, s: Parents, x: Id, rest: set<Id>)
    requires IsForest(w, root) && InSubtree(w, root, x) && (w[x].kind.File? || x in s)
    requires CatchingUp(s, w, root, rest + {x})
    ensures CatchingUp(s[x := w[x].parentRemoteId], w, root, rest)
  {
    var added := {x};
    assert forall y :: y in w && w[y].parentRemoteId.Some? && w[y].parentRemoteId.value in added - s.Keys ==>
             y in added;
    AddingKeeps(s, w, root, rest, x, added);
    assert s + (map y | y in added :: w[y].parentRemoteId) == s[x := w[x].parentRemoteId];
  }

  lemma {:induction false} HydrationKeeps(w: World, root: Id, s: Parents, x: Id, items: seq<RemoteItem>, rest: set<Id>)
    requires IsForest(w, root) && InSubtree(w, root, x) && w[x].kind.Folder? && HydratesFrom(w, x, items)
    requires CatchingUp(s, w, root, rest + {x})
    ensures HydrationVerdict(w[x], items).Ok?
    ensures CatchingUp(Replay(s, Upserts(items)), w, root, rest)
  {
    HonestHydrationPasses(w, root, x, items);
    VerdictIff(w[x], items);
    ReplayUpserts(s, items);
    ParentsMatch(w, items);
    ForestBelow(w, root, x, Ids(items));
    AddingKeeps(s, w, root, rest, x, Ids(items));
  }

  /** Everything below a subtree item is in the subtree, and belongs below with its children. */
  lemma {:induction false} ForestBelow(w: World, root: Id, x: Id, below: set<Id>)
    requires IsForest(w, root) && InSubtree(w, root, x)
    requires forall y :: y in below <==> y in w && Under(Links(w), y, x)
    ensures x in below
    ensures forall y :: y in below ==> InSubtree(w, root, y)
    ensures forall y :: y in w && w[y].parentRemoteId.Some? && w[y].parentRemoteId.value in below ==> y in below
  {
    var ps := Links(w);
    UnderCases(ps, x, x);
    forall y | y in below
      ensures InSubtree(w, root, y)
    {
      var m: nat :| Reaches(ps, y, x, m);
      var n: nat :| n > 0 && Reaches(ps, x, root, n);
      ReachesTrans(ps, y, x, root, m, n);
    }
    forall y | y in w && w[y].parentRemoteId.Some? && w[y].parentRemoteId.value in below
      ensures y in below
    {
      UnderStep(ps, y, x);
      UnderCases(ps, y, x);
    }
  }

  lemma {:induction false} RemainingIds(changes: seq<RemoteChange>, k: nat)
    requires k < |changes|
    ensures ChangedIds(changes[k..]) == ChangedIds(changes[k + 1..]) + {ChangeId(changes[k])}
  {
    var rest := changes[k + 1..];
    assert changes[k..] == [changes[k]] + rest;
    forall i | 0 <= i < |rest|
      ensures ChangeId(rest[i]) in ChangedIds(changes[k..])
    {
      assert changes[k..][i + 1] == rest[i];
    }
  }

  lemma {:induction false} PrefixCatchesUp(provider: Provider, before: World, now: World, root: Id,
                                           changes: seq<RemoteChange>, k: nat)
    requires IsForest(before, root) && IsForest(now, root) && AnswersTruly(provider, now, root)
    requires MentionsDifferences(before, now, changes) && k <= |changes|
    requires forall i :: 0 <= i < |changes| ==> ReportsChange(now, root, changes[i])
    ensures var ms := BatchMutations(provider, root, SubtreeOf(before, root), changes[..k]);
            if ms.Err? then ms.error == ProviderFailed && !NeverFails(provider, now, root)
            else CatchingUp(Replay(SubtreeOf(before, root), ms.value), now, root, ChangedIds(changes[k..]))
    decreases k
  {
    var s0 := SubtreeOf(before, root);
    if k == 0 {
      assert changes[0..] == changes;
      StartsCatchingUp(before, now, root, changes);
    } else {
      PrefixCatchesUp(provider, before, now, root, changes, k - 1);
      assert changes[..k][..k - 1] == changes[..k - 1];
      var done := BatchMutations(provider, root, s0, changes[..k - 1]);
      if done.Ok? {
        var change := changes[k - 1];
        RemainingIds(changes, k - 1);
        StepKeeps(provider, now, root, Replay(s0, done.value), change, ChangedIds(changes[k..]));
        var response := Respond(provider, root, Replay(s0, done.value), change);
        if response.Ok? {
          ReplayConcat(s0, done.value, response.value);
        }
      }
    }
  }

  /**
   Catch-up. A batch that reports the forest `now`, in any order and with repeats, and mentions
   every difference from the forest `before`, ends with exactly the selected subtree of `now`, unless the
   provider fails. Where a deletion finds its target on a parent cycle the executed batch does not end.
   */
  lemma {:induction false} BatchCatchesUp(provider: Provider, before: World, now: World, root: Id,
                                          changes: seq<RemoteChange>)
    requires IsForest(before, root) && IsForest(now, root) && AnswersTruly(provider, now, root)
    requires MentionsDifferences(before, now, changes)
    requires forall i :: 0 <= i < |changes| ==> ReportsChange(now, root, changes[i])
    ensures var ms := BatchMutations(provider, root, SubtreeOf(before, root), changes);
            if ms.Err? then ms.error == ProviderFailed && !NeverFails(provider, now, root)
            else Replay(SubtreeOf(before, root), ms.value) == SubtreeOf(now, root)
    ensures Complete(SubtreeOf(now, root), root)
  {
    var n := |changes|;
    assert changes[..n] == changes && changes[n..] == [];
    PrefixCatchesUp(provider, before, now, root, changes, n);
    assert ChangedIds([]) == {};
    var ms := BatchMutations(provider, root, SubtreeOf(before, root), changes);
    if ms.Ok? {
      CaughtUp(Replay(SubtreeOf(before, root), ms.value), now, root);
    }
    SubtreeIsComplete(now, root);
  }

  lemma {:induction false} SubtreeIsComplete(w: World, root: Id)
    requires IsForest(w, root)
    ensures Complete(SubtreeOf(w, root), root)
  {
    forall y | y in SubtreeOf(w, root)
      ensures StrictlyUnder(SubtreeOf(w, root), y, root)
    {
      var n: nat :| n > 0 && Reaches(Links(w), y, root, n);
      ChainInSubtree(w, root, y, n);
    }
  }

  lemma {:induction false} ChainInSubtree(w: World, root: Id, y: Id, n: nat)
    requires Reaches(Links(w), y, root, n)
    ensures Reaches(SubtreeOf(w, root), y, root, n)
    decreases n
  {
    if n > 0 {
      assert StrictlyUnder(Links(w), y, root);
      ChainInSubtree(w, root, w[y].parentRemoteId.value, n - 1);
    }
  }

  /** The executed batch answers with mutations that lead to the subtree of `now`, unless the provider fails. */
  lemma {:induction false} ExecutedBatchCatchesUp(provider: Provider, before: World, now: World, root: Id,
                                                  items: seq<RemoteItem>, changes: seq<RemoteChange>,
                                                  r: Result<seq<Mutation>, BatchError>)
    requires IsForest(before, root) && IsForest(now, root) && AnswersTruly(provider, now, root)
    requires MentionsDifferences(before, now, changes)
    requires forall i :: 0 <= i < |changes| ==> ReportsChange(now, root, changes[i])
    requires IsInitialCatalog(root, items) && ParentsOf(items) == SubtreeOf(before, root)
    requires BatchAnswers(provider, root, items, changes, r)
    ensures if r.Err? then r.error == ProviderFailed && !NeverFails(provider, now, root)
            else Replay(ParentsOf(items), r.value) == SubtreeOf(now, root)
  {
    InitialIssueIff(root, items);
    BatchCatchesUp(provider, before, now, root, changes);
  }
}
