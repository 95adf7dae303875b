/** Executing a whole plan in order: legal at every step, and converging on the expected tree. */
module ConvergenceRun {
  import opened Wrappers
  import opened RemoteCatalog
  import opened Sorting
  import opened Paths
  import opened ExpectedTree
  import opened Materialization
  import opened ConvergenceDecision
  import opened ConvergenceExecution

  /** The state after the first `k` actions. */
  function StateAt(s: State, actions: seq<Action>, k: nat): State
    requires k <= |actions|
    decreases k
  {
    if k == 0 then s else Execute(StateAt(s, actions, k - 1), actions[k - 1])
  }

  /** One step of an unblocked plan: legal, and the rest of the list is the next plan. */
  lemma {:induction false} FirstStep(e: Expected, s: State, actions: seq<Action>)
    requires Ready(e, s) && IsLocalTree(s.local) && actions != [] && ListsDrafts(actions, DecisionsIn(e, s))
    ensures Legal(s.local, actions[0])
    ensures var t := Execute(s, actions[0]);
            Ready(e, t) && IsLocalTree(t.local) && ListsDrafts(actions[1..], DecisionsIn(e, t))
  {
    assert actions[0] in actions;
    FirstActionIsLegal(e, s, actions);
    LegalKeepsTree(e, s, actions);
    TailListsRest(actions, DecisionsIn(e, s));
    StepRemovesDecision(e, s, actions[0].relativePath);
  }

  /** After `k` actions of an unblocked plan the rest of the list is the plan. */
  ghost predicate Underway(e: Expected, s: State, actions: seq<Action>, k: nat)
    requires k <= |actions|
  {
    var now := StateAt(s, actions, k);
    Ready(e, now) && IsLocalTree(now.local) && ListsDrafts(actions[k..], DecisionsIn(e, now))
  }

  lemma {:induction false} StaysUnderway(e: Expected, s: State, actions: seq<Action>, k: nat)
    requires k < |actions| && Underway(e, s, actions, k)
    ensures Legal(StateAt(s, actions, k).local, actions[k]) && Underway(e, s, actions, k + 1)
  {
    assert actions[k..][0] == actions[k] && actions[k..][1..] == actions[k + 1..];
    FirstStep(e, StateAt(s, actions, k), actions[k..]);
  }

  /** In order: after `k` actions of an unblocked plan the rest of the list is the plan, still unblocked. */
  lemma {:induction false} PlanExecutes(e: Expected, s: State, actions: seq<Action>, k: nat)
    requires k <= |actions| && Underway(e, s, actions, 0)
    ensures Underway(e, s, actions, k)
    decreases k
  {
    if k > 0 {
      PlanExecutes(e, s, actions, k - 1);
      StaysUnderway(e, s, actions, k - 1);
    }
  }

  /**
   Executing an unblocked plan in order is legal at every step: a create finds its parent directory,
   and a directory is empty when it is deleted.
   */
  lemma {:induction false} PlanIsLegal(e: Expected, s: State, actions: seq<Action>, k: nat)
    requires Ready(e, s) && IsLocalTree(s.local) && ListsDrafts(actions, DecisionsIn(e, s)) && k < |actions|
    ensures Legal(StateAt(s, actions, k).local, actions[k])
    ensures ListsDrafts(actions[k..], DecisionsIn(e, StateAt(s, actions, k)))
  {
    assert actions[0..] == actions;
    PlanExecutes(e, s, actions, k);
    StaysUnderway(e, s, actions, k);
  }

  /** With nothing decided, the local tree is the expected tree. */
  lemma {:induction false} NothingDecidedMeansConverged(e: Expected, s: State)
    requires DecisionsIn(e, s) == map[]
    ensures s.local == map p | p in e :: LocalKindFor(e[p].kind)
  {
    forall p
      ensures p in s.local <==> p in e
      ensures p in e ==> p in s.local && s.local[p] == LocalKindFor(e[p].kind)
    {
      DecisionAt(p, e, s.local, s.receipts);
    }
  }

  /** Convergence: executing an unblocked plan leaves exactly the expected tree and nothing to plan. */
  lemma {:induction false} PlanConverges(e: Expected, s: State, actions: seq<Action>)
    requires Ready(e, s) && IsLocalTree(s.local) && ListsDrafts(actions, DecisionsIn(e, s))
    ensures var done := StateAt(s, actions, |actions|);
            DecisionsIn(e, done) == map[] && done.local == map p | p in e :: LocalKindFor(e[p].kind)
  {
    var n := |actions|;
    assert actions[0..] == actions && actions[n..] == [];
    PlanExecutes(e, s, actions, n);
    EmptyPlanDecidesNothing(DecisionsIn(e, StateAt(s, actions, n)));
    NothingDecidedMeansConverged(e, StateAt(s, actions, n));
  }

  lemma {:induction false} EmptyPlanDecidesNothing(drafts: Drafts)
    requires ListsDrafts([], drafts)
    ensures drafts == map[]
  {
    forall p | p in drafts
      ensures false
    {
      DecidedIsListed([], drafts, p);
    }
  }

  lemma {:induction false} DecidedIsListed(actions: seq<Action>, drafts: Drafts, p: string)
    requires ListsDrafts(actions, drafts) && p in drafts
    ensures actions != []
  {
    assert ActionOf(drafts[p]) in actions;
  }
}
