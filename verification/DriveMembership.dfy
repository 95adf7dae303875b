/**
 What each answer of ancestry resolution means, told from the places on the parent chain alone, and what a provider
 that reports a forest and never fails is answered about every item of it.
 */
module DriveMembership {
  import opened Wrappers
  import opened RemoteCatalog
  import opened Forest
  import opened SubtreeWalk
  import opened CatchUp
  import opened DriveAncestry

  type Answer = Result<RootMembership, AncestryError>

  /** One of the first 128 places on the chain, other than the root; only good folders come before it. */
  ghost predicate Meets(fetch: Fetch, root: Id, start: Option<Id>, p: Id) {
    p != root && exists k: nat :: k < MAX_HOPS && Climbs(fetch, root, start, k, Some(p))
  }

  /** The chain ends within 128 places. */
  ghost predicate RunsOut(fetch: Fetch, root: Id, start: Option<Id>) {
    exists k: nat :: k < MAX_HOPS && Climbs(fetch, root, start, k, None)
  }

  /** The provider answers for the place, under the right id. */
  predicate IsFetched(fetch: Fetch, p: Id) {
    ValidAncestryId(p) && fetch(p).Some? && fetch(p).value.id == p
  }

  /** The place is in the trash or belongs to someone else. */
  predicate HasLeft(fetch: Fetch, p: Id) {
    IsFetched(fetch, p) && (fetch(p).value.trashed || !fetch(p).value.ownedByMe)
  }

  predicate IsMine(fetch: Fetch, p: Id) {
    IsFetched(fetch, p) && !fetch(p).value.trashed && fetch(p).value.ownedByMe
  }

  predicate IsNoFolder(fetch: Fetch, p: Id) {
    IsMine(fetch, p) && fetch(p).value.mimeType != "application/vnd.google-apps.folder"
  }

  predicate HasManyParents(fetch: Fetch, p: Id) {
    && IsMine(fetch, p) && fetch(p).value.mimeType == "application/vnd.google-apps.folder"
    && |fetch(p).value.parents| > 1
  }

  predicate IsUnanswered(fetch: Fetch, p: Id) {
    ValidAncestryId(p) && fetch(p).None?
  }

  predicate HasInvalidId(fetch: Fetch, p: Id) {
    !ValidAncestryId(p) || (fetch(p).Some? && !ValidAncestryId(fetch(p).value.id))
  }

  predicate IsMisnamed(fetch: Fetch, p: Id) {
    && ValidAncestryId(p) && fetch(p).Some? && ValidAncestryId(fetch(p).value.id)
    && fetch(p).value.id != p
  }

  /** The answers that a single place on the chain settles. */
  predicate IsSettledAnswer(r: Answer) {
    r != Ok(IsDescendant) && r != Err(AncestryCycleDetected) && r != Err(AncestryHopLimitExceeded)
  }

  lemma {:induction false} AnswerAtPlace(fetch: Fetch, root: Id, start: Option<Id>, r: Answer, q: Answer)
    requires ValidAncestryId(root) && IsAnswer(fetch, root, start, r) && IsSettledAnswer(q)
    ensures r == q <==> SettlesWithin(fetch, root, start, MAX_HOPS, q)
  {
    if SettlesWithin(fetch, root, start, MAX_HOPS, q) {
      AnswerIsUnique(fetch, root, start, r, q);
    }
  }

  /** What a place other than the root settles. */
  lemma {:induction false} PlaceSettles(fetch: Fetch, root: Id, p: Id)
    requires ValidAncestryId(root) && p != root
    ensures Settles(fetch, root, Some(p)) == Some(Ok(IsOutside)) <==> HasLeft(fetch, p)
    ensures Settles(fetch, root, Some(p)) == Some(Err(RequestFailed)) <==> IsUnanswered(fetch, p)
    ensures Settles(fetch, root, Some(p)) == Some(Err(InvalidAncestryIdentifier)) <==> HasInvalidId(fetch, p)
    ensures Settles(fetch, root, Some(p)) == Some(Err(AncestryMetadataIdMismatch)) <==> IsMisnamed(fetch, p)
    ensures Settles(fetch, root, Some(p)) == Some(Err(AncestryParentNotFolder)) <==> IsNoFolder(fetch, p)
    ensures Settles(fetch, root, Some(p)) == Some(Err(AncestryMultipleParents)) <==> HasManyParents(fetch, p)
    ensures Settles(fetch, root, None) == Some(Ok(IsOutside))
    ensures Settles(fetch, root, Some(root)) == Some(Ok(IsDescendant))
  {
  }

  ghost predicate MeetsSuch(fetch: Fetch, root: Id, start: Option<Id>, such: Id -> bool) {
    exists p :: Meets(fetch, root, start, p) && such(p)
  }

  /** An answer is settled within the chain exactly when a place that settles it is met. */
  lemma {:induction false} SettledByPlace(fetch: Fetch, root: Id, start: Option<Id>, q: Answer, such: Id -> bool)
    requires ValidAncestryId(root) && IsSettledAnswer(q)
    requires forall p :: p != root ==> (Settles(fetch, root, Some(p)) == Some(q) <==> such(p))
    ensures SettlesWithin(fetch, root, start, MAX_HOPS, q)
            <==> MeetsSuch(fetch, root, start, such) || (q == Ok(IsOutside) && RunsOut(fetch, root, start))
  {
    if SettlesWithin(fetch, root, start, MAX_HOPS, q) {
      var k: nat, at :| k < MAX_HOPS && Climbs(fetch, root, start, k, at) && Settles(fetch, root, at) == Some(q);
      if at.Some? {
        assert Settles(fetch, root, Some(root)) == Some(Ok(IsDescendant));
        assert Meets(fetch, root, start, at.value) && such(at.value);
      }
    }
    if MeetsSuch(fetch, root, start, such) {
      var p :| Meets(fetch, root, start, p) && such(p);
      var k: nat :| k < MAX_HOPS && Climbs(fetch, root, start, k, Some(p));
    }
  }

  /**
   Outside is answered if and only if, within 128 places and before the root, the chain runs out of parents or
   meets a folder that is in the trash or belongs to someone else.
   */
  lemma {:induction false} OutsideIff(fetch: Fetch, root: Id, start: Option<Id>, r: Answer)
    requires ValidAncestryId(root) && IsAnswer(fetch, root, start, r)
    ensures r == Ok(IsOutside)
            <==> RunsOut(fetch, root, start) || exists p :: Meets(fetch, root, start, p) && HasLeft(fetch, p)
  {
    AnswerAtPlace(fetch, root, start, r, Ok(IsOutside));
    forall p | p != root
      ensures Settles(fetch, root, Some(p)) == Some(Ok(IsOutside)) <==> HasLeft(fetch, p)
    {
      PlaceSettles(fetch, root, p);
    }
    SettledByPlace(fetch, root, start, Ok(IsOutside), p => HasLeft(fetch, p));
  }

  /** A request has failed only where a fetch failed. */
  lemma {:induction false} RequestFailedIff(fetch: Fetch, root: Id, start: Option<Id>, r: Answer)
    requires ValidAncestryId(root) && IsAnswer(fetch, root, start, r)
    ensures r == Err(RequestFailed) <==> exists p :: Meets(fetch, root, start, p) && IsUnanswered(fetch, p)
  {
    AnswerAtPlace(fetch, root, start, r, Err(RequestFailed));
    forall p | p != root
      ensures Settles(fetch, root, Some(p)) == Some(Err(RequestFailed)) <==> IsUnanswered(fetch, p)
    {
      PlaceSettles(fetch, root, p);
    }
    SettledByPlace(fetch, root, start, Err(RequestFailed), p => IsUnanswered(fetch, p));
  }

  lemma {:induction false} InvalidIdentifierIff(fetch: Fetch, root: Id, start: Option<Id>, r: Answer)
    requires ValidAncestryId(root) && IsAnswer(fetch, root, start, r)
    ensures r == Err(InvalidAncestryIdentifier)
            <==> exists p :: Meets(fetch, root, start, p) && HasInvalidId(fetch, p)
  {
    AnswerAtPlace(fetch, root, start, r, Err(InvalidAncestryIdentifier));
    forall p | p != root
      ensures Settles(fetch, root, Some(p)) == Some(Err(InvalidAncestryIdentifier)) <==> HasInvalidId(fetch, p)
    {
      PlaceSettles(fetch, root, p);
    }
    SettledByPlace(fetch, root, start, Err(InvalidAncestryIdentifier), p => HasInvalidId(fetch, p));
  }

  lemma {:induction false} IdMismatchIff(fetch: Fetch, root: Id, start: Option<Id>, r: Answer)
    requires ValidAncestryId(root) && IsAnswer(fetch, root, start, r)
    ensures r == Err(AncestryMetadataIdMismatch)
            <==> exists p :: Meets(fetch, root, start, p) && IsMisnamed(fetch, p)
  {
    AnswerAtPlace(fetch, root, start, r, Err(AncestryMetadataIdMismatch));
    forall p | p != root
      ensures Settles(fetch, root, Some(p)) == Some(Err(AncestryMetadataIdMismatch)) <==> IsMisnamed(fetch, p)
    {
      PlaceSettles(fetch, root, p);
    }
    SettledByPlace(fetch, root, start, Err(AncestryMetadataIdMismatch), p => IsMisnamed(fetch, p));
  }

  lemma {:induction false} ParentNotFolderIff(fetch: Fetch, root: Id, start: Option<Id>, r: Answer)
    requires ValidAncestryId(root) && IsAnswer(fetch, root, start, r)
    ensures r == Err(AncestryParentNotFolder)
            <==> exists p :: Meets(fetch, root, start, p) && IsNoFolder(fetch, p)
  {
    AnswerAtPlace(fetch, root, start, r, Err(AncestryParentNotFolder));
    forall p | p != root
      ensures Settles(fetch, root, Some(p)) == Some(Err(AncestryParentNotFolder)) <==> IsNoFolder(fetch, p)
    {
      PlaceSettles(fetch, root, p);
    }
    SettledByPlace(fetch, root, start, Err(AncestryParentNotFolder), p => IsNoFolder(fetch, p));
  }

  lemma {:induction false} MultipleParentsIff(fetch: Fetch, root: Id, start: Option<Id>, r: Answer)
    requires ValidAncestryId(root) && IsAnswer(fetch, root, start, r)
    ensures r == Err(AncestryMultipleParents)
            <==> exists p :: Meets(fetch, root, start, p) && HasManyParents(fetch, p)
  {
    AnswerAtPlace(fetch, root, start, r, Err(AncestryMultipleParents));
    forall p | p != root
      ensures Settles(fetch, root, Some(p)) == Some(Err(AncestryMultipleParents)) <==> HasManyParents(fetch, p)
    {
      PlaceSettles(fetch, root, p);
    }
    SettledByPlace(fetch, root, start, Err(AncestryMultipleParents), p => HasManyParents(fetch, p));
  }

  /** A cycle is reported exactly when one of the first 128 places comes twice. */
  lemma {:induction false} CycleIff(fetch: Fetch, root: Id, start: Option<Id>, r: Answer)
    requires ValidAncestryId(root) && IsAnswer(fetch, root, start, r)
    ensures r == Err(AncestryCycleDetected) <==> RepeatsWithin(fetch, root, start, MAX_HOPS)
  {
    assert !SettlesWithin(fetch, root, start, MAX_HOPS, Err(AncestryCycleDetected)) by {
      assert forall at: Option<Id> :: Settles(fetch, root, at) != Some(Err(AncestryCycleDetected));
    }
    if RepeatsWithin(fetch, root, start, MAX_HOPS) {
      AnswerIsUnique(fetch, root, start, r, Err(AncestryCycleDetected));
    }
  }

  /** 128 good folders lead on to something other than the root. */
  ghost predicate GoesBeyond(fetch: Fetch, root: Id, start: Option<Id>) {
    exists at: Option<Id> :: at != Some(root) && Climbs(fetch, root, start, MAX_HOPS, at)
  }

  /** The hop limit is exceeded exactly when 128 good folders, none twice, lead to something other than the root. */
  lemma {:induction false} HopLimitIff(fetch: Fetch, root: Id, start: Option<Id>, r: Answer)
    requires ValidAncestryId(root) && IsAnswer(fetch, root, start, r)
    ensures r == Err(AncestryHopLimitExceeded)
            <==> !RepeatsWithin(fetch, root, start, MAX_HOPS) && GoesBeyond(fetch, root, start)
  {
    assert !SettlesWithin(fetch, root, start, MAX_HOPS, Err(AncestryHopLimitExceeded)) by {
      assert forall at: Option<Id> :: Settles(fetch, root, at) != Some(Err(AncestryHopLimitExceeded));
    }
    if !RepeatsWithin(fetch, root, start, MAX_HOPS) && GoesBeyond(fetch, root, start) {
      AnswerIsUnique(fetch, root, start, r, Err(AncestryHopLimitExceeded));
    }
  }

  /** Climbing `k` folders of the forest from the parent of `x` comes to an end, or to something outside. */
  ghost predicate Leaves(w: World, root: Id, x: Id, k: nat)
    decreases k
  {
    && x in w
    && var p := w[x].parentRemoteId;
       if k == 0 then p.None? || (p.value !in w && p.value != root)
       else p.Some? && p.value in w && Leaves(w, root, p.value, k - 1)
  }

  /** What lies outside the forest is answered for: it is in the trash or belongs to someone else. */
  predicate ShowsOutside(fetch: Fetch, w: World, root: Id) {
    forall x :: x in w && w[x].parentRemoteId.Some? && w[x].parentRemoteId.value !in w
                && w[x].parentRemoteId.value != root
                ==> HasLeft(fetch, w[x].parentRemoteId.value)
  }

  lemma {:induction false} LeavingIsClimbing(fetch: Fetch, w: World, root: Id, x: Id, k: nat) returns (at: Option<Id>)
    requires ReportsForest(fetch, w, root) && root !in w && HasFolderParents(w) && ShowsOutside(fetch, w, root)
    requires Leaves(w, root, x, k)
    ensures Climbs(fetch, root, w[x].parentRemoteId, k, at)
    ensures at != Some(root) && (at.Some? ==> HasLeft(fetch, at.value))
    decreases k
  {
    var p := w[x].parentRemoteId;
    if k == 0 {
      at := p;
    } else {
      at := LeavingIsClimbing(fetch, w, root, p.value, k - 1);
      assert IsGoodFolder(fetch, p.value) && NextParent(fetch, p.value) == w[p.value].parentRemoteId;
    }
  }

  /** Part of the way is a climb to a folder of the forest. */
  lemma {:induction false} ClimbsPartly(fetch: Fetch, w: World, root: Id, x: Id, k: nat, j: nat) returns (p: Id)
    requires ReportsForest(fetch, w, root) && root !in w && HasFolderParents(w)
    requires Leaves(w, root, x, k) && j < k
    ensures Climbs(fetch, root, w[x].parentRemoteId, j, Some(p)) && p in w
    decreases j
  {
    var q := w[x].parentRemoteId.value;
    if j == 0 {
      p := q;
    } else {
      p := ClimbsPartly(fetch, w, root, q, k - 1, j - 1);
      assert IsGoodFolder(fetch, q) && NextParent(fetch, q) == w[q].parentRemoteId;
    }
  }

  /**
   On a provider that reports the forest and never fails, an item whose chain leaves the forest is answered outside
   if it leaves within 128 places, and otherwise exceeds the hop limit.
   */
  lemma {:induction false} OutsideOfForest(fetch: Fetch, w: World, root: Id, x: Id, k: nat, r: Answer)
    requires ReportsForest(fetch, w, root) && root !in w && HasFolderParents(w) && ShowsOutside(fetch, w, root)
    requires Leaves(w, root, x, k) && ValidAncestryId(root) && IsAnswer(fetch, root, w[x].parentRemoteId, r)
    ensures r == if k < 128 then Ok(IsOutside) else Err(AncestryHopLimitExceeded)
  {
    var start := w[x].parentRemoteId;
    var at := LeavingIsClimbing(fetch, w, root, x, k);
    if k < MAX_HOPS {
      assert at.Some? ==> Meets(fetch, root, start, at.value);
      OutsideIff(fetch, root, start, r);
    } else {
      assert at.None? || Settles(fetch, root, at) == Some(Ok(IsOutside)) by {
        if at.Some? { PlaceSettles(fetch, root, at.value); }
      }
      if RepeatsWithin(fetch, root, start, MAX_HOPS) {
        var i: nat, j: nat, c :|
          i < j < MAX_HOPS && Climbs(fetch, root, start, i, c) && Climbs(fetch, root, start, j, c);
        RepeatNeverSettles(fetch, root, start, i, j, c, k, at);
      }
      ClimbsToLimit(fetch, w, root, x, k, at);
      HopLimitIff(fetch, root, start, r);
    }
  }

  lemma {:induction false} ClimbsToLimit(fetch: Fetch, w: World, root: Id, x: Id, k: nat, at: Option<Id>)
    requires ReportsForest(fetch, w, root) && root !in w && HasFolderParents(w)
    requires Leaves(w, root, x, k) && k >= MAX_HOPS
    requires Climbs(fetch, root, w[x].parentRemoteId, k, at) && at != Some(root)
    ensures GoesBeyond(fetch, root, w[x].parentRemoteId)
  {
    if k > MAX_HOPS {
      var p := ClimbsPartly(fetch, w, root, x, k, MAX_HOPS);
    }
  }

  /** Every item of a forest that is not below the root leaves the forest somewhere. */
  lemma {:induction false} OutsideLeaves(w: World, root: Id, x: Id, visited: set<Id>) returns (k: nat)
    requires IsForest(w, root) && x in w && !InSubtree(w, root, x)
    requires visited <= w.Keys && forall v :: v in visited ==> StrictlyUnder(Links(w), v, x)
    ensures Leaves(w, root, x, k)
    decreases w.Keys - visited
  {
    var p := w[x].parentRemoteId;
    InSubtreeStep(w, root, x);
    assert x !in visited;
    if p.None? || p.value !in w {
      k := 0;
    } else {
      StillStrictlyUnder(w, x, p.value, visited);
      var n := OutsideLeaves(w, root, p.value, visited + {x});
      k := n + 1;
    }
  }

  lemma {:induction false} StillStrictlyUnder(w: World, x: Id, p: Id, visited: set<Id>)
    requires x in w && w[x].parentRemoteId == Some(p)
    requires forall v :: v in visited ==> StrictlyUnder(Links(w), v, x)
    ensures forall v :: v in visited + {x} ==> StrictlyUnder(Links(w), v, p)
  {
    var ps := Links(w);
    assert Reaches(ps, p, p, 0);
    assert Reaches(ps, x, p, 1);
    forall v | v in visited
      ensures StrictlyUnder(ps, v, p)
    {
      var n: nat :| n > 0 && Reaches(ps, v, x, n);
      ReachesTrans(ps, v, x, p, n, 1);
    }
  }
}
