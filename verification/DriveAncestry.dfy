/** Ancestry resolution: does an item's parent chain lead to the selected root? */
module DriveAncestry {
  import opened Wrappers
  import opened RemoteCatalog
  import opened Forest

  const GOOGLE_DRIVE_FOLDER_MIME_TYPE := "application/vnd.google-apps.folder"
  const MAX_HOPS := 128

  datatype AncestryMetadata = AncestryMetadata(id: Id, mimeType: string, parents: seq<Id>, trashed: bool,
                                               ownedByMe: bool)

  datatype AncestryError =
    | RequestFailed
    | InvalidAncestryIdentifier
    | AncestryCycleDetected
    | AncestryHopLimitExceeded
    | AncestryMetadataIdMismatch
    | AncestryParentNotFolder
    | AncestryMultipleParents

  datatype RootMembership = IsRoot | IsDescendant | IsOutside

  datatype AncestryStepResult = ReachedRoot | Continue(nextParent: Option<Id>) | LeftTree

  /** The provider during one resolution: a fixed answer for every id, or a failed request. */
  type Fetch = Id -> Option<AncestryMetadata>

  predicate IsIdCharacter(c: char) {
    'a' <= c <= 'z' || 'A' <= c <= 'Z' || '0' <= c <= '9' || c == '-' || c == '_'
  }

  predicate ValidAncestryId(value: string) {
    0 < |value| <= 256 && forall i :: 0 <= i < |value| ==> IsIdCharacter(value[i])
  }

  /** An id is valid if and only if it has 1 to 256 characters, all ASCII letters, digits, dashes or underscores. */
  lemma {:induction false} ValidIdIff(value: string)
    ensures ValidAncestryId(value)
            <==> && 1 <= |value| <= 256
                 && forall i :: 0 <= i < |value| ==>
                      var code := value[i] as int;
                      48 <= code <= 57 || 65 <= code <= 90 || 97 <= code <= 122 || code == 45 || code == 95
  {
    forall i | 0 <= i < |value|
      ensures IsIdCharacter(value[i]) <==> var code := value[i] as int;
                                           || 48 <= code <= 57 || 65 <= code <= 90 || 97 <= code <= 122
                                           || code == 45 || code == 95
    {
    }
  }

  function AncestryStep(expected: Id, root: Id, metadata: AncestryMetadata): Result<AncestryStepResult, AncestryError> {
    if !ValidAncestryId(expected) || !ValidAncestryId(root) || !ValidAncestryId(metadata.id) then
      Err(InvalidAncestryIdentifier)
    else if metadata.id != expected then Err(AncestryMetadataIdMismatch)
    else if metadata.trashed || !metadata.ownedByMe then Ok(LeftTree)
    else if metadata.mimeType != GOOGLE_DRIVE_FOLDER_MIME_TYPE then Err(AncestryParentNotFolder)
    else if |metadata.parents| > 1 then Err(AncestryMultipleParents)
    else
      var next := if metadata.parents == [] then None else Some(metadata.parents[0]);
      Ok(if next == Some(root) then ReachedRoot else Continue(next))
  }

  /** `p` is a live, owned folder with at most one parent, as the provider reports it. */
  predicate IsGoodFolder(fetch: Fetch, p: Id) {
    && ValidAncestryId(p) && fetch(p).Some?
    && fetch(p).value.id == p && !fetch(p).value.trashed && fetch(p).value.ownedByMe
    && fetch(p).value.mimeType == GOOGLE_DRIVE_FOLDER_MIME_TYPE && |fetch(p).value.parents| <= 1
  }

  function NextParent(fetch: Fetch, p: Id): Option<Id>
    requires IsGoodFolder(fetch, p)
  {
    if fetch(p).value.parents == [] then None else Some(fetch(p).value.parents[0])
  }

  /** Climbing `k` good folders from `start`, none of them the root, arrives at `at`. */
  ghost predicate Climbs(fetch: Fetch, root: Id, start: Option<Id>, k: nat, at: Option<Id>)
    decreases k
  {
    if k == 0 then at == start
    else
      && start.Some? && start.value != root && IsGoodFolder(fetch, start.value)
      && Climbs(fetch, root, NextParent(fetch, start.value), k - 1, at)
  }

  /** What an arrival place settles; None when the climb goes on. */
  function Settles(fetch: Fetch, root: Id, at: Option<Id>): Option<Result<RootMembership, AncestryError>> {
    if at.None? then Some(Ok(IsOutside))
    else if !ValidAncestryId(at.value) then Some(Err(InvalidAncestryIdentifier))
    else if at.value == root then Some(Ok(IsDescendant))
    else if fetch(at.value).None? then Some(Err(RequestFailed))
    else
      var metadata := fetch(at.value).value;
      if !ValidAncestryId(metadata.id) then Some(Err(InvalidAncestryIdentifier))
      else if metadata.id != at.value then Some(Err(AncestryMetadataIdMismatch))
      else if metadata.trashed || !metadata.ownedByMe then Some(Ok(IsOutside))
      else if metadata.mimeType != GOOGLE_DRIVE_FOLDER_MIME_TYPE then Some(Err(AncestryParentNotFolder))
      else if |metadata.parents| > 1 then Some(Err(AncestryMultipleParents))
      else None
  }

  /** The chain settles on `r` at a place fewer than `limit` folders up. */
  ghost predicate SettlesWithin(fetch: Fetch, root: Id, start: Option<Id>, limit: nat,
                                r: Result<RootMembership, AncestryError>)
  {
    exists k: nat, at: Option<Id> ::
      k < limit && Climbs(fetch, root, start, k, at) && Settles(fetch, root, at) == Some(r)
  }

  /** Two of the first `limit` places on the chain are the same. */
  ghost predicate RepeatsWithin(fetch: Fetch, root: Id, start: Option<Id>, limit: nat) {
    exists i: nat, j: nat, at: Option<Id> ::
      i < j < limit && Climbs(fetch, root, start, i, at) && Climbs(fetch, root, start, j, at)
  }

  /** The answer the first 128 places on the chain, and the step to the 129th, call for. */
  ghost predicate IsAnswer(fetch: Fetch, root: Id, start: Option<Id>, r: Result<RootMembership, AncestryError>) {
    || SettlesWithin(fetch, root, start, MAX_HOPS, r)
    || (r == Ok(IsDescendant) && Climbs(fetch, root, start, MAX_HOPS, Some(root)))
    || (r == Err(AncestryCycleDetected) && RepeatsWithin(fetch, root, start, MAX_HOPS))
    || (r == Err(AncestryHopLimitExceeded) && !RepeatsWithin(fetch, root, start, MAX_HOPS)
        && exists at: Option<Id> :: at != Some(root) && Climbs(fetch, root, start, MAX_HOPS, at))
  }

  ghost predicate ReachesWithin(fetch: Fetch, root: Id, start: Option<Id>, limit: nat) {
    exists k: nat :: k <= limit && Climbs(fetch, root, start, k, Some(root))
  }

  lemma {:induction false} ClimbsOn(fetch: Fetch, root: Id, start: Option<Id>, k: nat, p: Id)
    requires Climbs(fetch, root, start, k, Some(p)) && p != root && IsGoodFolder(fetch, p)
    ensures Climbs(fetch, root, start, k + 1, NextParent(fetch, p))
    decreases k
  {
    if k > 0 {
      ClimbsOn(fetch, root, NextParent(fetch, start.value), k - 1, p);
    } else {
      assert Climbs(fetch, root, NextParent(fetch, p), 0, NextParent(fetch, p));
    }
  }

  /** A climb is deterministic, so a longer one continues from where a shorter one arrives. */
  lemma {:induction false} ClimbsFrom(fetch: Fetch, root: Id, start: Option<Id>, j: nat, k: nat, a: Option<Id>,
                                      b: Option<Id>)
    requires j <= k && Climbs(fetch, root, start, j, a) && Climbs(fetch, root, start, k, b)
    ensures Climbs(fetch, root, a, k - j, b)
    decreases j
  {
    if j > 0 {
      ClimbsFrom(fetch, root, NextParent(fetch, start.value), j - 1, k - 1, a, b);
    }
  }

  lemma {:induction false} ClimbsThrough(fetch: Fetch, root: Id, start: Option<Id>, j: nat, k: nat, a: Option<Id>,
                                         b: Option<Id>)
    requires Climbs(fetch, root, start, j, a) && Climbs(fetch, root, a, k, b)
    ensures Climbs(fetch, root, start, j + k, b)
    decreases j
  {
    if j > 0 {
      ClimbsThrough(fetch, root, NextParent(fetch, start.value), j - 1, k, a, b);
    }
  }

  /** A place settles the answer exactly when no climb goes on from it. */
  lemma {:induction false} SettledIsLast(fetch: Fetch, root: Id, start: Option<Id>, j: nat, k: nat, a: Option<Id>,
                                         b: Option<Id>)
    requires Climbs(fetch, root, start, j, a) && Climbs(fetch, root, start, k, b)
    requires Settles(fetch, root, a).Some?
    ensures k <= j && (k == j ==> a == b)
  {
    if k >= j {
      ClimbsFrom(fetch, root, start, j, k, a, b);
    }
  }

  /** A chain that comes back to an earlier place never settles, so it never meets the root. */
  lemma {:induction false} RepeatNeverSettles(fetch: Fetch, root: Id, start: Option<Id>, i: nat, j: nat, at: Option<Id>,
                                              k: nat, b: Option<Id>)
    requires i < j && Climbs(fetch, root, start, i, at) && Climbs(fetch, root, start, j, at)
    requires Climbs(fetch, root, start, k, b) && Settles(fetch, root, b).Some?
    ensures false
    decreases k
  {
    SettledIsLast(fetch, root, start, k, j, b, at);
    ClimbsFrom(fetch, root, start, j, k, at, b);
    ClimbsThrough(fetch, root, start, i, k - j, at, b);
    RepeatNeverSettles(fetch, root, start, i, j, at, k - (j - i), b);
  }

  /** There is only one answer: the relation that the method is proved against is a function. */
  lemma {:induction false} AnswerIsUnique(fetch: Fetch, root: Id, start: Option<Id>,
                                          r: Result<RootMembership, AncestryError>,
                                          s: Result<RootMembership, AncestryError>)
    requires ValidAncestryId(root) && IsAnswer(fetch, root, start, r) && IsAnswer(fetch, root, start, s)
    ensures r == s
  {
    assert Settles(fetch, root, Some(root)) == Some(Ok(IsDescendant));
    if SettlesWithin(fetch, root, start, MAX_HOPS, r) {
      OtherAnswerAgrees(fetch, root, start, r, s);
    } else if SettlesWithin(fetch, root, start, MAX_HOPS, s) {
      OtherAnswerAgrees(fetch, root, start, s, r);
    } else if Climbs(fetch, root, start, MAX_HOPS, Some(root)) {
      UnsettledAtRoot(fetch, root, start, r);
      UnsettledAtRoot(fetch, root, start, s);
    }
  }

  lemma {:induction false} OtherAnswerAgrees(fetch: Fetch, root: Id, start: Option<Id>,
                                             r: Result<RootMembership, AncestryError>,
                                             s: Result<RootMembership, AncestryError>)
    requires SettlesWithin(fetch, root, start, MAX_HOPS, r) && IsAnswer(fetch, root, start, s)
    ensures r == s
  {
    var k: nat, at :| k < MAX_HOPS && Climbs(fetch, root, start, k, at) && Settles(fetch, root, at) == Some(r);
    if SettlesWithin(fetch, root, start, MAX_HOPS, s) {
      var m: nat, b :| m < MAX_HOPS && Climbs(fetch, root, start, m, b) && Settles(fetch, root, b) == Some(s);
      SettledIsLast(fetch, root, start, k, m, at, b);
      SettledIsLast(fetch, root, start, m, k, b, at);
    } else if RepeatsWithin(fetch, root, start, MAX_HOPS) {
      var i: nat, j: nat, c :| i < j < MAX_HOPS && Climbs(fetch, root, start, i, c) && Climbs(fetch, root, start, j, c);
      RepeatNeverSettles(fetch, root, start, i, j, c, k, at);
    } else {
      var c :| Climbs(fetch, root, start, MAX_HOPS, c);
      SettledIsLast(fetch, root, start, k, MAX_HOPS, at, c);
    }
  }

  lemma {:induction false} UnsettledAtRoot(fetch: Fetch, root: Id, start: Option<Id>,
                                           r: Result<RootMembership, AncestryError>)
    requires ValidAncestryId(root) && Climbs(fetch, root, start, MAX_HOPS, Some(root))
    requires IsAnswer(fetch, root, start, r) && !SettlesWithin(fetch, root, start, MAX_HOPS, r)
    ensures r == Ok(IsDescendant)
  {
    if RepeatsWithin(fetch, root, start, MAX_HOPS) {
      var i: nat, j: nat, c :| i < j < MAX_HOPS && Climbs(fetch, root, start, i, c) && Climbs(fetch, root, start, j, c);
      RepeatNeverSettles(fetch, root, start, i, j, c, MAX_HOPS, Some(root));
    } else if r == Err(AncestryHopLimitExceeded) {
      var c :| c != Some(root) && Climbs(fetch, root, start, MAX_HOPS, c);
      ClimbsFrom(fetch, root, start, MAX_HOPS, MAX_HOPS, c, Some(root));
    }
  }

  /**
   Descendant is answered exactly when the root is the item's ancestor at distance 1 to 129 and
   every closer ancestor is a good folder; a cycle error means that the chain never meets the root.
   */
  lemma {:induction false} DescendantIff(fetch: Fetch, root: Id, start: Option<Id>,
                                         r: Result<RootMembership, AncestryError>)
    requires ValidAncestryId(root) && IsAnswer(fetch, root, start, r)
    ensures r == Ok(IsDescendant) <==> ReachesWithin(fetch, root, start, MAX_HOPS)
    ensures r == Err(AncestryCycleDetected) ==> forall k: nat :: !Climbs(fetch, root, start, k, Some(root))
    ensures r == Ok(IsOutside) ==> forall k: nat :: !Climbs(fetch, root, start, k, Some(root))
  {
    assert Settles(fetch, root, Some(root)) == Some(Ok(IsDescendant));
    if r == Ok(IsDescendant) {
      if k: nat, at :| k < MAX_HOPS && Climbs(fetch, root, start, k, at) && Settles(fetch, root, at) == Some(r) {
        assert at == Some(root);
      }
    }
    forall k: nat | Climbs(fetch, root, start, k, Some(root))
      ensures k <= MAX_HOPS ==> r == Ok(IsDescendant)
      ensures r != Err(AncestryCycleDetected) && r != Ok(IsOutside)
    {
      RootSettles(fetch, root, start, r, k);
    }
  }

  lemma {:induction false} RootSettles(fetch: Fetch, root: Id, start: Option<Id>,
                                       r: Result<RootMembership, AncestryError>, k: nat)
    requires ValidAncestryId(root) && IsAnswer(fetch, root, start, r) && Climbs(fetch, root, start, k, Some(root))
    ensures k <= MAX_HOPS ==> r == Ok(IsDescendant)
    ensures r != Err(AncestryCycleDetected) && r != Ok(IsOutside)
  {
    assert Settles(fetch, root, Some(root)) == Some(Ok(IsDescendant));
    if k < MAX_HOPS {
      assert SettlesWithin(fetch, root, start, MAX_HOPS, Ok(IsDescendant));
      AnswerIsUnique(fetch, root, start, r, Ok(IsDescendant));
    } else if k == MAX_HOPS {
      AnswerIsUnique(fetch, root, start, r, Ok(IsDescendant));
    } else if SettlesWithin(fetch, root, start, MAX_HOPS, r) {
      var m: nat, at :| m < MAX_HOPS && Climbs(fetch, root, start, m, at) && Settles(fetch, root, at) == Some(r);
      SettledIsLast(fetch, root, start, m, k, at, Some(root));
    } else if RepeatsWithin(fetch, root, start, MAX_HOPS) {
      var i: nat, j: nat, c :| i < j < MAX_HOPS && Climbs(fetch, root, start, i, c) && Climbs(fetch, root, start, j, c);
      RepeatNeverSettles(fetch, root, start, i, j, c, k, Some(root));
    }
  }

  /** The ids seen so far are the places on the chain so far, and none of them came twice. */
  ghost predicate SeenIsChain(fetch: Fetch, root: Id, start: Option<Id>, seen: set<Id>, hops: nat) {
    && (forall p :: p in seen <==> VisitedBefore(fetch, root, start, p, hops))
    && !RepeatsWithin(fetch, root, start, hops)
  }

  ghost predicate VisitedBefore(fetch: Fetch, root: Id, start: Option<Id>, p: Id, hops: nat) {
    exists i: nat :: i < hops && Climbs(fetch, root, start, i, Some(p))
  }

  lemma {:induction false} SeesNext(fetch: Fetch, root: Id, start: Option<Id>, seen: set<Id>, hops: nat, p: Id)
    requires SeenIsChain(fetch, root, start, seen, hops) && Climbs(fetch, root, start, hops, Some(p)) && p !in seen
    ensures SeenIsChain(fetch, root, start, seen + {p}, hops + 1)
  {
    forall q
      ensures q in seen + {p} <==> VisitedBefore(fetch, root, start, q, hops + 1)
    {
      if VisitedBefore(fetch, root, start, q, hops + 1) {
        var i: nat :| i < hops + 1 && Climbs(fetch, root, start, i, Some(q));
        if i == hops {
          ClimbsFrom(fetch, root, start, hops, hops, Some(p), Some(q));
        } else {
          assert VisitedBefore(fetch, root, start, q, hops);
        }
      }
    }
    if i: nat, j: nat, at :|
      i < j < hops + 1 && Climbs(fetch, root, start, i, at) && Climbs(fetch, root, start, j, at)
    {
      if j == hops {
        ClimbsFrom(fetch, root, start, hops, hops, at, Some(p));
        assert VisitedBefore(fetch, root, start, p, hops);
      } else {
        assert RepeatsWithin(fetch, root, start, hops);
      }
    }
  }

  method ResolveItemMembership(fetch: Fetch, item: RemoteItem, root: Id)
    returns (r: Result<RootMembership, AncestryError>)
    ensures !ValidAncestryId(item.remoteId) || !ValidAncestryId(root) ==> r == Err(InvalidAncestryIdentifier)
    ensures ValidAncestryId(root) && item.remoteId == root ==> r == Ok(IsRoot)
    ensures ValidAncestryId(item.remoteId) && ValidAncestryId(root) && item.remoteId != root
            ==> IsAnswer(fetch, root, item.parentRemoteId, r)
  {
    if !ValidAncestryId(item.remoteId) || !ValidAncestryId(root) {
      return Err(InvalidAncestryIdentifier);
    }
    if item.remoteId == root {
      return Ok(IsRoot);
    }
    ghost var start := item.parentRemoteId;
    var currentParent := item.parentRemoteId;
    var seen: set<Id> := {};
    for hop := 0 to MAX_HOPS
      invariant Climbs(fetch, root, start, hop, currentParent)
      invariant SeenIsChain(fetch, root, start, seen, hop)
      invariant hop > 0 ==> currentParent != Some(root)
    {
      ghost var settled := Settles(fetch, root, currentParent);
      assert settled.Some? ==> SettlesWithin(fetch, root, start, MAX_HOPS, settled.value);
      if currentParent.None? {
        return Ok(IsOutside);
      }
      var parent := currentParent.value;
      if !ValidAncestryId(parent) {
        return Err(InvalidAncestryIdentifier);
      }
      if parent == root {
        return Ok(IsDescendant);
      }
      if parent in seen {
        assert VisitedBefore(fetch, root, start, parent, hop);
        assert RepeatsWithin(fetch, root, start, MAX_HOPS);
        return Err(AncestryCycleDetected);
      }
      SeesNext(fetch, root, start, seen, hop, parent);
      seen := seen + {parent};
      var metadata := fetch(parent);
      if metadata.None? {
        return Err(RequestFailed);
      }
      var step := AncestryStep(parent, root, metadata.value);
      if step.Err? {
        return Err(step.error);
      }
      if step.value.LeftTree? {
        return Ok(IsOutside);
      }
      assert IsGoodFolder(fetch, parent);
      ClimbsOn(fetch, root, start, hop, parent);
      if step.value.ReachedRoot? {
        RootIsNext(fetch, root, start, hop + 1);
        return Ok(IsDescendant);
      }
      currentParent := step.value.nextParent;
    }
    return Err(AncestryHopLimitExceeded);
  }

  lemma {:induction false} RootIsNext(fetch: Fetch, root: Id, start: Option<Id>, k: nat)
    requires ValidAncestryId(root) && k <= MAX_HOPS && Climbs(fetch, root, start, k, Some(root))
    ensures IsAnswer(fetch, root, start, Ok(IsDescendant))
  {
    assert Settles(fetch, root, Some(root)) == Some(Ok(IsDescendant));
    if k < MAX_HOPS {
      assert SettlesWithin(fetch, root, start, MAX_HOPS, Ok(IsDescendant));
    }
  }

  /** The provider reports the forest `w`: the good folders are its live folders, with their parents. */
  ghost predicate ReportsForest(fetch: Fetch, w: World, root: Id) {
    && (forall p :: p != root && IsGoodFolder(fetch, p) ==> p in w && NextParent(fetch, p) == w[p].parentRemoteId)
    && (forall p :: p in w && w[p].kind.Folder? ==> IsGoodFolder(fetch, p))
  }

  ghost predicate HasFolderParents(w: World) {
    forall y :: y in w && w[y].parentRemoteId.Some? && w[y].parentRemoteId.value in w ==>
        w[w[y].parentRemoteId.value].kind.Folder?
  }

  /** On such a provider a parent chain of the forest is a climb, and a climb is a parent chain. */
  lemma {:induction false} ChainIsClimb(fetch: Fetch, w: World, root: Id, x: Id, k: nat)
    requires ReportsForest(fetch, w, root) && root !in w && HasFolderParents(w)
    requires Reaches(Links(w), x, root, k + 1)
    ensures Climbs(fetch, root, w[x].parentRemoteId, k, Some(root))
    decreases k
  {
    var p := w[x].parentRemoteId.value;
    assert Reaches(Links(w), p, root, k);
    if k > 0 {
      ChainIsClimb(fetch, w, root, p, k - 1);
      assert IsGoodFolder(fetch, p) && NextParent(fetch, p) == w[p].parentRemoteId;
    }
  }

  lemma {:induction false} ClimbIsChain(fetch: Fetch, w: World, root: Id, x: Id, k: nat)
    requires ReportsForest(fetch, w, root) && root !in w && x in w
    requires Climbs(fetch, root, w[x].parentRemoteId, k, Some(root))
    ensures Reaches(Links(w), x, root, k + 1)
    decreases k
  {
    var p := w[x].parentRemoteId.value;
    if k > 0 {
      assert NextParent(fetch, p) == w[p].parentRemoteId;
      ClimbIsChain(fetch, w, root, p, k - 1);
    } else {
      assert Reaches(Links(w), p, root, 0);
    }
  }

  /**
   On a provider that reports the forest, the answer is descendant exactly for the items at most
   129 steps below the root.
   */
  lemma {:induction false} MembershipMatchesForest(fetch: Fetch, w: World, root: Id, x: Id,
                                                   r: Result<RootMembership, AncestryError>)
    requires ReportsForest(fetch, w, root) && root !in w && HasFolderParents(w) && x in w
    requires ValidAncestryId(root) && IsAnswer(fetch, root, w[x].parentRemoteId, r)
    ensures r == Ok(IsDescendant) <==> WithinDepth(Links(w), x, root, 129)
  {
    var start := w[x].parentRemoteId;
    DescendantIff(fetch, root, start, r);
    if WithinDepth(Links(w), x, root, MAX_HOPS + 1) {
      var n: nat :| 0 < n <= MAX_HOPS + 1 && Reaches(Links(w), x, root, n);
      ChainIsClimb(fetch, w, root, x, n - 1);
      assert ReachesWithin(fetch, root, start, MAX_HOPS);
    }
    if ReachesWithin(fetch, root, start, MAX_HOPS) {
      var k: nat :| k <= MAX_HOPS && Climbs(fetch, root, start, k, Some(root));
      ClimbIsChain(fetch, w, root, x, k);
    }
  }

  ghost predicate WithinDepth(ps: Parents, x: Id, root: Id, limit: nat) {
    exists n: nat :: 0 < n <= limit && Reaches(ps, x, root, n)
  }
}
