/**
 The breadth-first search with a reached set that both completeness checks run:
 its invariant, and what the reached set is when the queue is empty.
 */
module CatalogSearch {
  import opened Wrappers
  import opened RemoteCatalog
  import opened Forest
  import opened SubtreeWalk

  /** `busy` is the parent whose children are being inserted right now. */
  ghost predicate Searching(ps: Parents, root: Id, reached: set<Id>, queue: seq<Id>, busy: Option<Id>) {
    && reached <= ps.Keys
    && (forall y :: y in reached ==> StrictlyUnder(ps, y, root))
    && (forall q :: q in queue ==> q == root || q in reached)
    && (busy.Some? ==> busy.value == root || busy.value in reached)
    && (forall c :: Searched(ps, root, reached, queue, busy, c) ==> c in reached)
  }

  /** `c` is a child of something found, and the search is past that parent. */
  ghost predicate Searched(ps: Parents, root: Id, reached: set<Id>, queue: seq<Id>, busy: Option<Id>, c: Id) {
    && c in ps && ps[c].Some? && (ps[c].value == root || ps[c].value in reached)
    && ps[c].value !in queue && ps[c] != busy
  }

  lemma {:induction false} SearchStarts(ps: Parents, root: Id)
    ensures Searching(ps, root, {}, [root], None)
  {}

  lemma {:induction false} SearchPops(ps: Parents, root: Id, reached: set<Id>, queue: seq<Id>)
    requires Searching(ps, root, reached, queue, None) && queue != []
    ensures Searching(ps, root, reached, queue[1..], Some(queue[0]))
  {
    forall c | Searched(ps, root, reached, queue[1..], Some(queue[0]), c)
      ensures c in reached
    {
      assert Searched(ps, root, reached, queue, None, c);
    }
  }

  lemma {:induction false} SearchInserts(ps: Parents, root: Id, reached: set<Id>, queue: seq<Id>, parent: Id, child: Id)
    requires Searching(ps, root, reached, queue, Some(parent))
    requires child in ps && ps[child] == Some(parent) && child !in reached
    ensures Searching(ps, root, reached + {child}, queue + [child], Some(parent))
  {
    UnderCases(ps, parent, root);
    UnderStep(ps, child, root);
    forall c | Searched(ps, root, reached + {child}, queue + [child], Some(parent), c)
      ensures c in reached + {child}
    {
      assert child in queue + [child];
      assert Searched(ps, root, reached, queue, Some(parent), c);
    }
  }

  lemma {:induction false} SearchFinishesParent(ps: Parents, root: Id, reached: set<Id>, queue: seq<Id>, parent: Id)
    requires Searching(ps, root, reached, queue, Some(parent))
    requires Children(ps, parent) <= reached
    ensures Searching(ps, root, reached, queue, None)
  {
    forall c | Searched(ps, root, reached, queue, None, c)
      ensures c in reached
    {
      if ps[c] == Some(parent) {
        assert c in Children(ps, parent);
      } else {
        assert Searched(ps, root, reached, queue, Some(parent), c);
      }
    }
  }

  /** An exhausted search has reached exactly the items whose chain ends at the root. */
  lemma {:induction false} SearchFinished(ps: Parents, root: Id, reached: set<Id>)
    requires Searching(ps, root, reached, [], None)
    ensures forall y :: y in reached <==> StrictlyUnder(ps, y, root)
    ensures |reached| == |ps| <==> Complete(ps, root)
  {
    forall y | StrictlyUnder(ps, y, root)
      ensures y in reached
    {
      var n: nat :| n > 0 && Reaches(ps, y, root, n);
      forall c | c in ps && ps[c].Some? && (ps[c].value == root || ps[c].value in reached)
        ensures c in reached
      {
        assert Searched(ps, root, reached, [], None, c);
      }
      ClosedSetHoldsAll(ps, root, reached, y, n);
    }
    SubsetSize(reached, ps.Keys);
    if Complete(ps, root) {
      assert reached == ps.Keys;
    }
  }

  /**
   The inner loop of both searches: insert each child not reached yet and queue it.
   `found` is the reached set without the `top` that the hydration check puts in beforehand.
   */
  method InsertChildren(ghost ps: Parents, ghost root: Id, ghost top: set<Id>, ghost found: set<Id>,
                        parent: Id, children: seq<Id>, reached: set<Id>, queue: seq<Id>)
    returns (ghost found': set<Id>, reached': set<Id>, queue': seq<Id>)
    requires top !! ps.Keys && reached == found + top
    requires Searching(ps, root, found, queue, Some(parent))
    requires forall c :: c in Children(ps, parent) <==> c in children
    ensures reached' == found' + top && found <= found'
    ensures found' == found ==> queue' == queue
    ensures Searching(ps, root, found', queue', None)
  {
    found', reached', queue' := found, reached, queue;
    for k := 0 to |children|
      invariant reached' == found' + top && found <= found'
      invariant found' == found ==> queue' == queue
      invariant Searching(ps, root, found', queue', Some(parent))
      invariant forall i :: 0 <= i < k ==> children[i] in found'
    {
      var child := children[k];
      assert child in Children(ps, parent);
      if child !in reached' {
        SearchInserts(ps, root, found', queue', parent, child);
        found', reached', queue' := found' + {child}, reached' + {child}, queue' + [child];
      }
    }
    SearchFinishesParent(ps, root, found', queue', parent);
  }
}
