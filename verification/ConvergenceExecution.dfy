/**
 Executing one action: what it does to the local tree and the receipts, why the first action of an
 unblocked plan is legal, and why the tail is the next plan.
 */
module ConvergenceExecution {
  import opened Wrappers
  import opened RemoteCatalog
  import opened Sorting
  import opened Paths
  import opened ExpectedTree
  import opened Materialization
  import opened ConvergenceDecision

  datatype State = State(local: Local, receipts: Receipts)

  function Put(receipts: Receipts, receipt: Receipt): Receipts {
    Receipts(receipts.byId[receipt.remoteId := receipt], receipts.byPath[receipt.relativePath := receipt])
  }

  function Removed(receipts: Receipts, id: Id, p: string): Receipts {
    Receipts(receipts.byId - {id}, receipts.byPath - {p})
  }

  /**
   A successful action. Creating, materializing, verifying and replacing leave a current receipt;
   deleting removes the entry and its receipt; a blocked path is left alone.
   */
  function Execute(s: State, a: Action): State {
    var p := a.relativePath;
    if a.remoteId.None? then s
    else
      var id := a.remoteId.value;
      match a.kind
      case CreateDirectory =>
        State(s.local[p := LocalDirectory], Put(s.receipts, Receipt(id, p, LocalDirectory, Current)))
      case MaterializeMissingFile => State(s.local[p := LocalFile], Put(s.receipts, Receipt(id, p, LocalFile, Current)))
      case VerifyExistingFile => State(s.local, Put(s.receipts, Receipt(id, p, LocalFile, Current)))
      case RevalidateStaleFileReplacement => State(s.local, Put(s.receipts, Receipt(id, p, LocalFile, Current)))
      case RevalidateStaleFileDeletion => State(s.local - {p}, Removed(s.receipts, id, p))
      case DeleteOwnedEmptyDirectory => State(s.local - {p}, Removed(s.receipts, id, p))
      case Blocked => s
  }

  /** Every scanned entry's parent is a scanned directory. */
  ghost predicate IsLocalTree(local: Local) {
    forall p {:trigger HasDirectoryAbove(local, p)} :: p in local ==> HasDirectoryAbove(local, p)
  }

  ghost predicate HasDirectoryAbove(local: Local, p: string) {
    Depth(p) > 1 ==> Parent(p) in local && local[Parent(p)].LocalDirectory?
  }

  /** The filesystem accepts the action in this local tree. */
  ghost predicate Legal(local: Local, a: Action) {
    var p := a.relativePath;
    match a.kind
    case CreateDirectory | MaterializeMissingFile =>
      p !in local && HasDirectoryAbove(local, p)
    case VerifyExistingFile | RevalidateStaleFileReplacement | RevalidateStaleFileDeletion =>
      p in local && local[p].LocalFile?
    case DeleteOwnedEmptyDirectory =>
      p in local && local[p].LocalDirectory? && IsEmptyIn(local, p)
    case Blocked => false
  }

  function DecisionsIn(e: Expected, s: State): Drafts {
    Decisions(e, s.local, s.receipts)
  }

  ghost predicate Ready(e: Expected, s: State) {
    IsExpectedTree(e) && s.receipts.Consistent() && Unblocked(DecisionsIn(e, s))
  }

  /** The state after the action decided at `p`. */
  function After(e: Expected, s: State, p: string): State
    requires p in DecisionsIn(e, s)
  {
    Execute(s, ActionOf(DecisionsIn(e, s)[p]))
  }

  /** An unblocked decision at an expected path, and its one effect: the entry and a current receipt are there. */
  lemma {:induction false} ExpectedEffect(e: Expected, s: State, p: string)
    requires Ready(e, s) && p in DecisionsIn(e, s) && p in e
    ensures !ReceiptConflict(e[p], p, s.receipts) && (p in s.local ==> s.local[p] == LocalKindFor(e[p].kind))
    ensures After(e, s, p) == State(s.local[p := LocalKindFor(e[p].kind)],
                                    Put(s.receipts, Receipt(e[p].remoteId, p, LocalKindFor(e[p].kind), Current)))
    ensures Priority(DecisionsIn(e, s)[p].kind) == if e[p].kind.Folder? then 0 else 1
    ensures DecisionsIn(e, s)[p].kind.CreateDirectory? || DecisionsIn(e, s)[p].kind.MaterializeMissingFile?
            <==> p !in s.local
  {
    DecisionAt(p, e, s.local, s.receipts);
    assert !DecisionsIn(e, s)[p].kind.Blocked?;
  }

  /** An unblocked decision elsewhere, and its one effect: the entry and its stale receipt are gone. */
  lemma {:induction false} LocalOnlyEffect(e: Expected, s: State, p: string)
    requires Ready(e, s) && p in DecisionsIn(e, s) && p !in e
    ensures p in s.local && p in s.receipts.byPath && s.receipts.byPath[p].remoteId !in ExpectedIds(e)
    ensures After(e, s, p) == State(s.local - {p}, Removed(s.receipts, s.receipts.byPath[p].remoteId, p))
    ensures Priority(DecisionsIn(e, s)[p].kind) >= 2
    ensures s.local[p].LocalDirectory? ==> DecisionsIn(e, s)[p].kind.DeleteOwnedEmptyDirectory? && IsEmptyIn(s.local, p)
    ensures s.local[p].LocalFile? ==> DecisionsIn(e, s)[p].kind.RevalidateStaleFileDeletion?
  {
    DecisionAt(p, e, s.local, s.receipts);
    assert !DecisionsIn(e, s)[p].kind.Blocked?;
  }

  lemma {:induction false} PutKeepsConsistent(receipts: Receipts, r: Receipt)
    requires receipts.Consistent()
    requires r.remoteId in receipts.byId ==> receipts.byId[r.remoteId].relativePath == r.relativePath
    requires r.relativePath in receipts.byPath ==> receipts.byPath[r.relativePath].remoteId == r.remoteId
    ensures Put(receipts, r).Consistent()
  {}

  lemma {:induction false} RemoveKeepsConsistent(receipts: Receipts, p: string)
    requires receipts.Consistent() && p in receipts.byPath
    ensures Removed(receipts, receipts.byPath[p].remoteId, p).Consistent()
  {}

  lemma {:induction false} StaysConsistent(e: Expected, s: State, p: string)
    requires Ready(e, s) && p in DecisionsIn(e, s)
    ensures After(e, s, p).receipts.Consistent()
  {
    if p in e {
      ExpectedEffect(e, s, p);
      PutKeepsConsistent(s.receipts, Receipt(e[p].remoteId, p, LocalKindFor(e[p].kind), Current));
    } else {
      LocalOnlyEffect(e, s, p);
      RemoveKeepsConsistent(s.receipts, p);
    }
  }

  /** A directory outside the expected tree has nothing scanned or decided below it. */
  lemma {:induction false} NothingBelowDoomed(e: Expected, s: State, q: string, p: string)
    requires Ready(e, s) && q in s.local && q !in e && s.local[q].LocalDirectory? && p in DecisionsIn(e, s)
    ensures !IsBelow(p, q)
  {
    DecisionAt(q, e, s.local, s.receipts);
    LocalOnlyEffect(e, s, q);
    if IsBelow(p, q) {
      if p in e {
        AncestorsAreExpected(e, p, q);
      } else {
        LocalOnlyEffect(e, s, p);
      }
    }
  }

  /** The emptiness of the other doomed directories does not change. */
  lemma {:induction false} EmptinessStays(e: Expected, s: State, t: State, p: string, q: string)
    requires Ready(e, s) && p in DecisionsIn(e, s) && q in s.local && q !in e && s.local[q].LocalDirectory?
    requires t == After(e, s, p)
    ensures IsEmptyIn(t.local, q) <==> IsEmptyIn(s.local, q)
  {
    NothingBelowDoomed(e, s, q, p);
    forall x | x != p
      ensures x in t.local <==> x in s.local
    {
      OtherLookupsStay(e, s, p, x);
    }
  }

  predicate SameLookups(e: Expected, s: State, t: State, q: string) {
    && Lookup(t.local, q) == Lookup(s.local, q) && Lookup(t.receipts.byPath, q) == Lookup(s.receipts.byPath, q)
    && (q in e ==> Lookup(t.receipts.byId, e[q].remoteId) == Lookup(s.receipts.byId, e[q].remoteId))
  }

  /** A decision depends only on the lookups of its own path and id, and on emptiness for a doomed directory. */
  lemma {:induction false} SameLookupsSameDecision(e: Expected, s: State, t: State, q: string)
    requires SameLookups(e, s, t, q)
    requires q in s.local && q !in e && s.local[q].LocalDirectory?
             ==> (IsEmptyIn(t.local, q) <==> IsEmptyIn(s.local, q))
    ensures Decide(q, e, t.local, t.receipts) == Decide(q, e, s.local, s.receipts)
  {}

  /** Executed, a path needs nothing more. */
  lemma {:induction false} ExecutedIsSettled(e: Expected, s: State, p: string)
    requires Ready(e, s) && p in DecisionsIn(e, s)
    ensures Decide(p, e, After(e, s, p).local, After(e, s, p).receipts).None?
  {
    if p in e {
      ExpectedEffect(e, s, p);
    } else {
      LocalOnlyEffect(e, s, p);
    }
  }

  lemma {:induction false} OtherLookupsStay(e: Expected, s: State, p: string, q: string)
    requires Ready(e, s) && p in DecisionsIn(e, s) && q != p
    ensures SameLookups(e, s, After(e, s, p), q)
    ensures q in After(e, s, p).local <==> q in s.local
  {
    if p in e {
      ExpectedEffect(e, s, p);
      assert q in e ==> e[q].remoteId != e[p].remoteId;
    } else {
      LocalOnlyEffect(e, s, p);
      assert q in e ==> e[q].remoteId in ExpectedIds(e);
    }
  }

  /** Every other path is decided as before. */
  lemma {:induction false} OthersDecideAsBefore(e: Expected, s: State, p: string, q: string)
    requires Ready(e, s) && p in DecisionsIn(e, s) && q != p
    ensures Decide(q, e, After(e, s, p).local, After(e, s, p).receipts) == Decide(q, e, s.local, s.receipts)
  {
    var t := After(e, s, p);
    OtherLookupsStay(e, s, p, q);
    if q in s.local && q !in e && s.local[q].LocalDirectory? {
      EmptinessStays(e, s, t, p, q);
    }
    SameLookupsSameDecision(e, s, t, q);
  }

  /** Executing the action of `p` removes exactly its decision; the plan stays unblocked. */
  lemma {:induction false} StepRemovesDecision(e: Expected, s: State, p: string)
    requires Ready(e, s) && p in DecisionsIn(e, s)
    ensures DecisionsIn(e, After(e, s, p)) == DecisionsIn(e, s) - {p}
    ensures Ready(e, After(e, s, p))
  {
    var t := After(e, s, p);
    StaysConsistent(e, s, p);
    forall q
      ensures q in DecisionsIn(e, t) <==> q in DecisionsIn(e, s) - {p}
      ensures q in DecisionsIn(e, t) ==> q in DecisionsIn(e, s) && DecisionsIn(e, t)[q] == DecisionsIn(e, s)[q]
    {
      if q == p { ExecutedIsSettled(e, s, p); } else { OthersDecideAsBefore(e, s, p, q); }
      DecisionAt(q, e, t.local, t.receipts);
      DecisionAt(q, e, s.local, s.receipts);
    }
  }

  /** Step and replan: after the first action of an unblocked plan, the new plan is the tail of the old one. */
  lemma {:induction false} ReplanIsTail(e: Expected, s: State, actions: seq<Action>, replanned: seq<Action>)
    requires Ready(e, s) && actions != [] && ListsDrafts(actions, DecisionsIn(e, s))
    requires ListsDrafts(replanned, DecisionsIn(e, Execute(s, actions[0])))
    ensures replanned == actions[1..]
    ensures Ready(e, Execute(s, actions[0]))
  {
    var p := actions[0].relativePath;
    TailListsRest(actions, DecisionsIn(e, s));
    assert actions[0] in actions;
    StepRemovesDecision(e, s, p);
    PlanIsUnique(replanned, actions[1..], DecisionsIn(e, s) - {p});
  }

  /** The first action of an unblocked plan is legal: its parent is there, or nothing is left below it. */
  lemma {:induction false} FirstActionIsLegal(e: Expected, s: State, actions: seq<Action>)
    requires Ready(e, s) && IsLocalTree(s.local) && actions != [] && ListsDrafts(actions, DecisionsIn(e, s))
    ensures Legal(s.local, actions[0])
  {
    var a := actions[0];
    var p := a.relativePath;
    assert a in actions;
    if p in e {
      ExpectedEffect(e, s, p);
      if p !in s.local && Depth(p) > 1 {
        ParentIsThere(e, s, actions);
      }
    } else {
      LocalOnlyEffect(e, s, p);
    }
  }

  /** A missing parent would itself be created, and sorted first. */
  lemma {:induction false} ParentIsThere(e: Expected, s: State, actions: seq<Action>)
    requires Ready(e, s) && actions != [] && ListsDrafts(actions, DecisionsIn(e, s))
    requires actions[0].relativePath in e && Depth(actions[0].relativePath) > 1
    ensures Parent(actions[0].relativePath) in s.local && s.local[Parent(actions[0].relativePath)].LocalDirectory?
  {
    var a := actions[0];
    var p, q := a.relativePath, Parent(a.relativePath);
    assert a in actions;
    ParentSplit(p);
    assert HasFolderAbove(e, p);
    DecisionAt(q, e, s.local, s.receipts);
    if q in DecisionsIn(e, s) {
      ExpectedEffect(e, s, q);
      ExpectedEffect(e, s, p);
      if q !in s.local {
        var b := ActionOf(DecisionsIn(e, s)[q]);
        assert b in actions;
        FirstIsLeast(ActionBefore, actions, b);
        assert false;
      }
    }
  }

  /** A legal action keeps the local tree a tree. */
  lemma {:induction false} LegalKeepsTree(e: Expected, s: State, actions: seq<Action>)
    requires Ready(e, s) && IsLocalTree(s.local) && actions != [] && ListsDrafts(actions, DecisionsIn(e, s))
    ensures IsLocalTree(Execute(s, actions[0]).local)
  {
    var a := actions[0];
    var p, t := a.relativePath, Execute(s, a);
    assert a in actions;
    FirstActionIsLegal(e, s, actions);
    if p in e { ExpectedEffect(e, s, p); } else { LocalOnlyEffect(e, s, p); }
    forall q | q in t.local
      ensures HasDirectoryAbove(t.local, q)
    {
      assert q != p ==> HasDirectoryAbove(s.local, q);
      if Depth(q) > 1 {
        ParentSplit(q);
        if Parent(q) == p && p !in e {
          assert IsBelow(q, p);
        }
      }
    }
  }
}
