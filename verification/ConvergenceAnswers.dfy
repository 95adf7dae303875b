/** What the planner's own answers promise: calling it again after a step, and executing what it returned. */
module ConvergenceAnswers {
  import opened Wrappers
  import opened RemoteCatalog
  import opened RemoteTree
  import opened ExpectedTree
  import opened Materialization
  import opened ConvergenceDecision
  import opened ConvergencePlanner
  import opened ConvergencePlan
  import opened ConvergenceExecution
  import opened ConvergenceRun

  function StateOf(entries: seq<LocalEntry>, receipts: seq<Receipt>): State {
    State(LocalOf(entries), ReceiptsOf(receipts))
  }

  /** What the planner returns for a listed catalog, and what makes executing it meaningful. */
  ghost predicate IsRunnable(items: seq<RemoteItem>, out: seq<ExpectedPath>, entries: seq<LocalEntry>,
                             receipts: seq<Receipt>, maxActions: nat, r: Result<Plan, ConvergenceError>)
  {
    && IsExpectedList(items, out) && UniqueReceipts(receipts) && Answers(out, entries, receipts, maxActions, r)
    && r.Ok? && !r.value.IsBlocked()
  }

  lemma {:induction false} RunnableIsReady(items: seq<RemoteItem>, out: seq<ExpectedPath>, entries: seq<LocalEntry>,
                                           receipts: seq<Receipt>, maxActions: nat, r: Result<Plan, ConvergenceError>)
    requires IsRunnable(items, out, entries, receipts, maxActions, r)
    ensures Ready(ExpectedOf(out), StateOf(entries, receipts))
    ensures ListsDrafts(r.value.actions, DecisionsIn(ExpectedOf(out), StateOf(entries, receipts)))
    ensures |DecisionsIn(ExpectedOf(out), StateOf(entries, receipts))| <= maxActions
  {
    ListGivesTree(items, out);
    ReceiptsAreConsistent(receipts);
    BlockedIff(r.value, ExpectedOf(out), LocalOf(entries), ReceiptsOf(receipts));
  }

  lemma {:induction false} LessIsDecided(e: Expected, s: State, actions: seq<Action>)
    requires Ready(e, s) && actions != [] && ListsDrafts(actions, DecisionsIn(e, s))
    ensures Unblocked(DecisionsIn(e, Execute(s, actions[0])))
    ensures |DecisionsIn(e, Execute(s, actions[0]))| <= |DecisionsIn(e, s)|
  {
    assert actions[0] in actions;
    StepRemovesDecision(e, s, actions[0].relativePath);
    assert DecisionsIn(e, s).Keys == DecisionsIn(e, Execute(s, actions[0])).Keys + {actions[0].relativePath};
  }

  /** An answer on a state that has few enough decisions, none of them blocked. */
  lemma {:induction false} FittingAnswer(out: seq<ExpectedPath>, entries: seq<LocalEntry>, receipts: seq<Receipt>,
                                         maxActions: nat, r: Result<Plan, ConvergenceError>)
    requires Answers(out, entries, receipts, maxActions, r)
    requires |DecisionsIn(ExpectedOf(out), StateOf(entries, receipts))| <= maxActions
    requires Unblocked(DecisionsIn(ExpectedOf(out), StateOf(entries, receipts)))
    ensures r.Ok? && !r.value.IsBlocked()
    ensures ListsDrafts(r.value.actions, DecisionsIn(ExpectedOf(out), StateOf(entries, receipts)))
  {
    BlockedIff(r.value, ExpectedOf(out), LocalOf(entries), ReceiptsOf(receipts));
  }

  /**
   Two calls of the planner: after the first action of an unblocked answer, the planner answers again, within
   the same limit, unblocked, and with exactly the rest of the actions.
   */
  lemma {:induction false} NextAnswerIsTail(items: seq<RemoteItem>, out: seq<ExpectedPath>,
                                            entries: seq<LocalEntry>, entries': seq<LocalEntry>,
                                            receipts: seq<Receipt>, receipts': seq<Receipt>, maxActions: nat,
                                            r: Result<Plan, ConvergenceError>, r': Result<Plan, ConvergenceError>)
    requires IsRunnable(items, out, entries, receipts, maxActions, r) && r.value.actions != []
    requires StateOf(entries', receipts') == Execute(StateOf(entries, receipts), r.value.actions[0])
    requires Answers(out, entries', receipts', maxActions, r')
    ensures r'.Ok? && !r'.value.IsBlocked() && r'.value.actions == r.value.actions[1..]
  {
    var e, s := ExpectedOf(out), StateOf(entries, receipts);
    RunnableIsReady(items, out, entries, receipts, maxActions, r);
    LessIsDecided(e, s, r.value.actions);
    FittingAnswer(out, entries', receipts', maxActions, r');
    ReplanIsTail(e, s, r.value.actions, r'.value.actions);
  }

  /** An unblocked answer, executed on a local tree, is legal throughout and leaves exactly the listed tree. */
  lemma {:induction false} AnswerConverges(items: seq<RemoteItem>, out: seq<ExpectedPath>, entries: seq<LocalEntry>,
                                           receipts: seq<Receipt>, maxActions: nat, r: Result<Plan, ConvergenceError>)
    requires IsRunnable(items, out, entries, receipts, maxActions, r) && IsLocalTree(LocalOf(entries))
    ensures forall k :: 0 <= k < |r.value.actions| ==>
              Legal(StateAt(StateOf(entries, receipts), r.value.actions, k).local, r.value.actions[k])
    ensures StateAt(StateOf(entries, receipts), r.value.actions, |r.value.actions|).local
            == map p | p in ExpectedOf(out) :: LocalKindFor(ExpectedOf(out)[p].kind)
  {
    var e, s := ExpectedOf(out), StateOf(entries, receipts);
    RunnableIsReady(items, out, entries, receipts, maxActions, r);
    PlanConverges(e, s, r.value.actions);
    forall k | 0 <= k < |r.value.actions|
      ensures Legal(StateAt(s, r.value.actions, k).local, r.value.actions[k])
    {
      PlanIsLegal(e, s, r.value.actions, k);
    }
  }
}
