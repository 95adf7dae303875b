/**
 The theory of parent maps. Everything here is about one finite map from an
 identifier to its optional parent, seen as a set of parent chains.
 */
module Forest {
  import opened Wrappers
  import opened RemoteCatalog

  type Parents = map<Id, Option<Id>>

  /** Items by id; the root of a tree of items is not one of them. */
  type World = map<Id, RemoteItem>

  function Links(w: World): Parents {
    map x | x in w :: w[x].parentRemoteId
  }

  /** Following exactly `n` parent links from `y` ends at `x`. */
  ghost predicate Reaches(ps: Parents, y: Id, x: Id, n: nat)
    decreases n
  {
    if n == 0 then y == x
    else y in ps && ps[y].Some? && Reaches(ps, ps[y].value, x, n - 1)
  }

  /** `y` is `x` or a transitive child of `x`. */
  ghost predicate Under(ps: Parents, y: Id, x: Id) {
    exists n: nat :: Reaches(ps, y, x, n)
  }

  ghost predicate StrictlyUnder(ps: Parents, y: Id, x: Id) {
    exists n: nat :: n > 0 && Reaches(ps, y, x, n)
  }

  ghost predicate OnCycle(ps: Parents, x: Id) {
    StrictlyUnder(ps, x, x)
  }

  /** Every catalogued item has a parent chain that ends at the root. */
  ghost predicate Complete(ps: Parents, root: Id) {
    forall y :: y in ps ==> StrictlyUnder(ps, y, root)
  }

  function Children(ps: Parents, p: Id): set<Id> {
    set c | c in ps && ps[c] == Some(p)
  }

  /** The parent-to-children index that agrees with `ps` and has no empty bucket. */
  function IndexOf(ps: Parents): map<Id, set<Id>> {
    map p | p in (set c | c in ps && ps[c].Some? :: ps[c].value) :: Children(ps, p)
  }

  /** `ps` without `x` and without its transitive children. */
  ghost function WithoutSubtree(ps: Parents, x: Id): Parents {
    map y | y in ps && !Under(ps, y, x) :: ps[y]
  }

  lemma {:induction false} ReachesTrans(ps: Parents, x: Id, y: Id, z: Id, m: nat, n: nat)
    requires Reaches(ps, x, y, m) && Reaches(ps, y, z, n)
    ensures Reaches(ps, x, z, m + n)
    decreases m
  {
    if m > 0 {
      ReachesTrans(ps, ps[x].value, y, z, m - 1, n);
    }
  }

  /** Parent chains are deterministic: a longer chain passes through the end of a shorter one. */
  lemma {:induction false} ReachesSplit(ps: Parents, x: Id, y: Id, z: Id, m: nat, n: nat)
    requires Reaches(ps, x, y, m) && Reaches(ps, x, z, n) && m <= n
    ensures Reaches(ps, y, z, n - m)
    decreases m
  {
    if m > 0 {
      ReachesSplit(ps, ps[x].value, y, z, m - 1, n - 1);
    }
  }

  /** A parent chain meets every point between its ends. */
  lemma {:induction false} ReachesMiddle(ps: Parents, x: Id, z: Id, m: nat, n: nat) returns (y: Id)
    requires Reaches(ps, x, z, n) && m <= n
    ensures Reaches(ps, x, y, m) && Reaches(ps, y, z, n - m)
    decreases m
  {
    if m == 0 {
      y := x;
    } else {
      y := ReachesMiddle(ps, ps[x].value, z, m - 1, n - 1);
    }
  }

  lemma {:induction false} UnderStep(ps: Parents, y: Id, x: Id)
    requires y in ps && ps[y].Some?
    ensures Under(ps, ps[y].value, x) ==> StrictlyUnder(ps, y, x)
    ensures StrictlyUnder(ps, y, x) ==> Under(ps, ps[y].value, x)
  {
    if Under(ps, ps[y].value, x) {
      var n: nat :| Reaches(ps, ps[y].value, x, n);
      assert Reaches(ps, y, x, n + 1);
    }
    if StrictlyUnder(ps, y, x) {
      var n: nat :| n > 0 && Reaches(ps, y, x, n);
      assert Reaches(ps, ps[y].value, x, n - 1);
    }
  }

  lemma {:induction false} UnderCases(ps: Parents, y: Id, x: Id)
    ensures Under(ps, y, x) <==> y == x || StrictlyUnder(ps, y, x)
    ensures StrictlyUnder(ps, y, x) ==> y in ps && ps[y].Some?
  {
    if Under(ps, y, x) && y != x {
      var n: nat :| Reaches(ps, y, x, n);
      assert n > 0;
    }
    if y == x {
      assert Reaches(ps, y, x, 0);
    }
  }

  /** A child of something under an off-cycle `x` is never `x` itself. */
  lemma {:induction false} ChildOfSubtreeIsNotTop(ps: Parents, c: Id, current: Id, x: Id)
    requires !OnCycle(ps, x) && Under(ps, current, x)
    requires c in ps && ps[c] == Some(current)
    ensures c != x && Under(ps, c, x)
  {
    UnderStep(ps, c, x);
    UnderCases(ps, c, x);
  }

  /** A set that contains every child of `root` and of its own members holds all that reaches `root`. */
  lemma {:induction false} ClosedSetHoldsAll(ps: Parents, root: Id, s: set<Id>, y: Id, n: nat)
    requires n > 0 && Reaches(ps, y, root, n)
    requires forall c :: c in ps && ps[c].Some? && (ps[c].value == root || ps[c].value in s) ==> c in s
    ensures y in s
    decreases n
  {
    if n > 1 {
      ClosedSetHoldsAll(ps, root, s, ps[y].value, n - 1);
    }
  }

  /** In a complete map whose root is not itself catalogued, nothing lies on a parent cycle. */
  lemma {:induction false} CompleteHasNoCycle(ps: Parents, root: Id, x: Id)
    requires Complete(ps, root) && root !in ps
    ensures !OnCycle(ps, x)
  {
    if OnCycle(ps, x) {
      UnderCases(ps, x, x);
      var k: nat :| k > 0 && Reaches(ps, x, x, k);
      var n: nat :| n > 0 && Reaches(ps, x, root, n);
      CycleRepeats(ps, x, k, n);
      ReachesSplit(ps, x, root, x, n, n * k);
    }
  }

  lemma {:induction false} CycleRepeats(ps: Parents, x: Id, k: nat, times: nat)
    requires Reaches(ps, x, x, k)
    ensures times * k >= 0 && Reaches(ps, x, x, times * k)
    ensures k > 0 ==> times * k >= times
    decreases times
  {
    if times > 0 {
      CycleRepeats(ps, x, k, times - 1);
      ReachesTrans(ps, x, x, x, k, (times - 1) * k);
      assert k + (times - 1) * k == times * k;
    }
  }

  /** A chain that avoids `x` is the same chain after the entry of `x` changes. */
  lemma {:induction false} ReachesAfterUpdate(ps: Parents, x: Id, p: Option<Id>, y: Id, z: Id, n: nat)
    requires Reaches(ps, y, z, n)
    requires forall m: nat :: m < n ==> !Reaches(ps, y, x, m)
    ensures Reaches(ps[x := p], y, z, n)
    decreases n
  {
    if n > 0 {
      assert !Reaches(ps, y, x, 0);
      forall m: nat | m < n - 1
        ensures !Reaches(ps, ps[y].value, x, m)
      {
        assert !Reaches(ps, y, x, m + 1);
      }
      ReachesAfterUpdate(ps, x, p, ps[y].value, z, n - 1);
    }
  }

  /**
   From a complete catalog, moving or adding `x` below `p` leaves it complete exactly when
   `p` is the root or a catalogued item outside the subtree of `x`.
   */
  lemma {:induction false} UpsertKeepsCompleteIff(ps: Parents, root: Id, x: Id, p: Option<Id>)
    requires Complete(ps, root) && root !in ps && x != root
    ensures Complete(ps[x := p], root)
            <==> p.Some? && (p.value == root || (p.value in ps && !Under(ps, p.value, x)))
  {
    var qs := ps[x := p];
    if p.Some? && (p.value == root || (p.value in ps && !Under(ps, p.value, x))) {
      UpsertStaysComplete(ps, root, x, p.value);
    }
    if Complete(qs, root) {
      assert x in qs;
      UnderCases(qs, x, root);
      if p.value != root {
        UnderStep(qs, x, root);
        UnderCases(qs, p.value, root);
        assert p.value in qs;
        CompleteHasNoCycle(qs, root, x);
        if Under(ps, p.value, x) {
          var n: nat := ShortestUnder(ps, p.value, x);
          ReachesAfterUpdate(ps, x, p, p.value, x, n);
          assert Reaches(qs, x, x, n + 1);
          assert false;
        }
        if p.value == x {
          assert Reaches(ps, p.value, x, 0);
        }
      }
    }
  }

  lemma {:induction false} ShortestUnder(ps: Parents, y: Id, x: Id) returns (n: nat)
    requires Under(ps, y, x)
    ensures Reaches(ps, y, x, n) && forall m: nat :: m < n ==> !Reaches(ps, y, x, m)
  {
    n :| Reaches(ps, y, x, n);
    while exists m: nat :: m < n && Reaches(ps, y, x, m)
      invariant Reaches(ps, y, x, n)
      decreases n
    {
      var m: nat :| m < n && Reaches(ps, y, x, m);
      n := m;
    }
  }

  lemma {:induction false} UpsertStaysComplete(ps: Parents, root: Id, x: Id, p: Id)
    requires Complete(ps, root) && root !in ps && x != root
    requires p == root || (p in ps && !Under(ps, p, x))
    ensures Complete(ps[x := Some(p)], root)
  {
    var qs := ps[x := Some(p)];
    assert StrictlyUnder(qs, x, root) by {
      if p == root {
        assert Reaches(qs, p, root, 0);
      } else {
        var n: nat :| n > 0 && Reaches(ps, p, root, n);
        ReachesAfterUpdate(ps, x, Some(p), p, root, n);
        assert Reaches(qs, p, root, n);
      }
      assert Under(qs, p, root);
      UnderStep(qs, x, root);
    }
    forall y | y in qs
      ensures StrictlyUnder(qs, y, root)
    {
      if y != x {
        var n: nat :| n > 0 && Reaches(ps, y, root, n);
        if Under(ps, y, x) {
          var m: nat := ShortestUnder(ps, y, x);
          ReachesAfterUpdate(ps, x, Some(p), y, x, m);
          var k: nat :| k > 0 && Reaches(qs, x, root, k);
          ReachesTrans(qs, y, x, root, m, k);
        } else {
          ReachesAfterUpdate(ps, x, Some(p), y, root, n);
        }
      }
    }
  }
}
