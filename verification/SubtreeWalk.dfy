/**
 The visited-set-free breadth-first walk that `delete_subtree` uses: which queue
 states it can pass through, when it ends, and what it has collected by then.
 */
module SubtreeWalk {
  import opened Wrappers
  import opened RemoteCatalog
  import opened Forest

  ghost predicate NoDuplicates<T>(s: seq<T>) {
    forall i, j :: 0 <= i < j < |s| ==> s[i] != s[j]
  }

  function Elems<T>(s: seq<T>): set<T> {
    set x | x in s
  }

  /** `s` lists the set `ids` once each, in some order. */
  ghost predicate Lists<T(!new)>(s: seq<T>, ids: set<T>) {
    NoDuplicates(s) && forall x :: x in s <==> x in ids
  }

  /** Lists a hash set; the order is unspecified, as it is in the source. */
  method ListElements<T(==, !new)>(ids: set<T>) returns (s: seq<T>)
    ensures Lists(s, ids)
  {
    s := [];
    var rest := ids;
    while rest != {}
      invariant rest <= ids && NoDuplicates(s)
      invariant forall x :: x in s <==> x in ids - rest
    {
      var x :| x in rest;
      assert x !in s;
      s := s + [x];
      rest := rest - {x};
    }
  }

  lemma {:induction false} ListLength<T(!new)>(s: seq<T>, ids: set<T>)
    requires Lists(s, ids)
    ensures |s| == |ids|
    decreases |s|
  {
    if s == [] {
      if x :| x in ids { assert x in s; }
    } else {
      var n := |s| - 1;
      forall x | x in ids - {s[n]}
        ensures x in s[..n]
      {
        assert x in s;
      }
      ListLength(s[..n], ids - {s[n]});
    }
  }

  /** One turn of the collecting loop: pop the front, append its children in any order. */
  ghost predicate PopsTo(ps: Parents, before: seq<Id>, after: seq<Id>) {
    before != [] && exists kids :: Lists(kids, Children(ps, before[0])) && after == before[1..] + kids
  }

  ghost predicate IsRun(ps: Parents, x: Id, run: seq<seq<Id>>) {
    && run != [] && run[0] == [x]
    && forall i :: 0 < i < |run| ==> PopsTo(ps, run[i - 1], run[i])
  }

  /**
   `done` has been popped and `queue` is waiting. Read as one sequence they start at `x`,
   repeat nothing, and every later element is a child of an earlier popped one.
   */
  ghost predicate Walk(ps: Parents, x: Id, done: seq<Id>, queue: seq<Id>) {
    var all := done + queue;
    && all != [] && all[0] == x && NoDuplicates(all)
    && (forall i :: 0 <= i < |all| ==> Under(ps, all[i], x))
    && (forall i :: 0 < i < |all| ==> ParentPopped(ps, done, all, i))
    && (forall c :: c in ps && ps[c].Some? && ps[c].value in done ==> c in all)
  }

  ghost predicate ParentPopped(ps: Parents, done: seq<Id>, all: seq<Id>, i: nat)
    requires i < |all|
  {
    all[i] in ps && exists j :: 0 <= j < i && j < |done| && ps[all[i]] == Some(done[j])
  }

  lemma {:induction false} WalkStarts(ps: Parents, x: Id)
    ensures Walk(ps, x, [], [x])
  {
    UnderCases(ps, x, x);
  }

  lemma {:induction false} WalkContinues(ps: Parents, x: Id, done: seq<Id>, queue: seq<Id>, kids: seq<Id>)
    requires !OnCycle(ps, x) && queue != []
    requires Walk(ps, x, done, queue) && Lists(kids, Children(ps, queue[0]))
    ensures Walk(ps, x, done + [queue[0]], queue[1..] + kids)
  {
    var current := queue[0];
    var all, done', queue' := done + queue, done + [current], queue[1..] + kids;
    var all' := done' + queue';
    assert all' == all + kids;
    assert all[|done|] == current;
    forall i | 0 < i < |all|
      ensures all[i] in ps && ps[all[i]] != Some(current)
    {
      assert ParentPopped(ps, done, all, i);
      var j :| 0 <= j < i && j < |done| && ps[all[i]] == Some(done[j]);
      assert all[j] != all[|done|];
    }
    forall k | 0 <= k < |kids|
      ensures kids[k] in ps && ps[kids[k]] == Some(current) && kids[k] != x && Under(ps, kids[k], x) && kids[k] !in all
    {
      assert kids[k] in Children(ps, current);
      ChildOfSubtreeIsNotTop(ps, kids[k], current, x);
    }
    forall i | 0 <= i < |all'|
      ensures Under(ps, all'[i], x) && (i > 0 ==> ParentPopped(ps, done', all', i))
    {
      if i < |all| {
        assert all'[i] == all[i];
        if i > 0 {
          assert ParentPopped(ps, done, all, i);
          var j :| 0 <= j < i && j < |done| && ps[all[i]] == Some(done[j]);
          assert done'[j] == done[j];
        }
      } else {
        assert all'[i] == kids[i - |all|];
        assert done'[|done|] == current;
      }
    }
    forall c | c in ps && ps[c].Some? && ps[c].value in done'
      ensures c in all'
    {
      if ps[c].value == current {
        assert c in Children(ps, current);
        assert c in kids;
      }
    }
    assert NoDuplicates(all');
  }

  /** Once the queue is empty, the popped elements are exactly `x` and its transitive children. */
  lemma {:induction false} WalkFinished(ps: Parents, x: Id, done: seq<Id>)
    requires Walk(ps, x, done, [])
    ensures forall y :: y in done <==> Under(ps, y, x)
  {
    assert done + [] == done;
    forall y | Under(ps, y, x)
      ensures y in done
    {
      UnderCases(ps, y, x);
      if y != x {
        var s := set e | e in done;
        var n: nat :| n > 0 && Reaches(ps, y, x, n);
        ClosedSetHoldsAll(ps, x, s, y, n);
      } else {
        assert done[0] == x;
      }
    }
  }

  /** Off a cycle every run stops: it cannot pop more often than there are catalogued ids. */
  lemma {:induction false} OffCycleRunStops(ps: Parents, x: Id, run: seq<seq<Id>>)
    requires !OnCycle(ps, x) && IsRun(ps, x, run)
    ensures |run| <= |ps| + 2
  {
    var done := WalkAlongRun(ps, x, run, |run| - 1);
    var all := done + run[|run| - 1];
    var popped := set e | e in done;
    forall e | e in popped
      ensures e in ps.Keys + {x}
    {
      assert e in all;
      UnderCases(ps, e, x);
    }
    assert NoDuplicates(done) by {
      assert forall i :: 0 <= i < |done| ==> all[i] == done[i];
    }
    ListLength(done, popped);
    SubsetSize(popped, ps.Keys + {x});
    assert |ps.Keys + {x}| <= |ps| + 1;
  }

  lemma {:induction false} SubsetSize<T>(s: set<T>, t: set<T>)
    requires s <= t
    ensures |s| <= |t|
    ensures |s| == |t| ==> s == t
  {
    assert s + (t - s) == t;
    if |s| == |t| {
      assert t - s == {};
    }
  }

  lemma {:induction false} WalkAlongRun(ps: Parents, x: Id, run: seq<seq<Id>>, i: nat) returns (done: seq<Id>)
    requires !OnCycle(ps, x) && IsRun(ps, x, run) && i < |run|
    ensures |done| == i && Walk(ps, x, done, run[i])
    decreases i
  {
    if i == 0 {
      done := [];
      WalkStarts(ps, x);
    } else {
      var before := WalkAlongRun(ps, x, run, i - 1);
      assert PopsTo(ps, run[i - 1], run[i]);
      var kids :| Lists(kids, Children(ps, run[i - 1][0])) && run[i] == run[i - 1][1..] + kids;
      WalkContinues(ps, x, before, run[i - 1], kids);
      done := before + [run[i - 1][0]];
    }
  }

  /** On a cycle no run ever empties its queue: some member of the cycle is always waiting. */
  lemma {:induction false} OnCycleNeverDrains(ps: Parents, x: Id, run: seq<seq<Id>>, i: nat)
    requires OnCycle(ps, x) && IsRun(ps, x, run) && i < |run|
    ensures exists e :: e in run[i] && OnCycle(ps, e)
    decreases i
  {
    if i == 0 {
      assert x in run[0];
    } else {
      OnCycleNeverDrains(ps, x, run, i - 1);
      var e :| e in run[i - 1] && OnCycle(ps, e);
      assert PopsTo(ps, run[i - 1], run[i]);
      if e in run[i - 1][1..] {
        assert e in run[i];
      } else {
        var c := ChildOnCycle(ps, e);
        assert c in Children(ps, run[i - 1][0]);
        assert c in run[i];
      }
    }
  }

  lemma {:induction false} ChildOnCycle(ps: Parents, e: Id) returns (c: Id)
    requires OnCycle(ps, e)
    ensures c in ps && ps[c] == Some(e) && OnCycle(ps, c)
  {
    var k: nat :| k > 0 && Reaches(ps, e, e, k);
    c := ReachesMiddle(ps, e, e, k - 1, k);
    assert Reaches(ps, e, e, 0);
    assert Reaches(ps, c, e, 1);
    ReachesTrans(ps, c, e, c, 1, k - 1);
  }
}
