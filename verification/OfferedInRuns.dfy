/** What the offer of actions makes of the Operations a run of the whole system leaves. */
module OfferedInRuns {
  import opened Wrappers
  import opened OperationRows
  import opened OperationProtocol
  import opened OperationSafety
  import opened ActiveOperation
  import OperationGuarantees
  import ActionPolicy

  /** One Application's Operations, by identities in order of creation. */
  ghost predicate Lists(w: World, order: seq<OperationId>, application: ApplicationId) {
    && (forall id :: id in order ==> id in w.ops && w.ops[id].row.application == application)
    && forall j, k :: 0 <= j < k < |order| ==> order[j] != order[k]
  }

  function RowsInOrder(w: World, order: seq<OperationId>): seq<Row>
    requires forall id :: id in order ==> id in w.ops
  {
    seq(|order|, k requires 0 <= k < |order| => assert order[k] in order; w.ops[order[k]].row)
  }

  /** In every run the rows a projection reads have at most one running. */
  lemma {:induction false} OneOperationRuns(steps: seq<Step>, order: seq<OperationId>, application: ApplicationId)
    requires Lists(Execute(START, steps), order, application)
    ensures OneRuns(RowsInOrder(Execute(START, steps), order))
  {
    var w := Execute(START, steps);
    var rows := RowsInOrder(w, order);
    OperationGuarantees.RunningIsLeasedAndExclusive(steps);
    forall j, k | 0 <= j < k < |rows|
      ensures !(rows[j].status.Running? && rows[k].status.Running?)
    {
      assert order[j] in order && order[k] in order;
      assert rows[j] == RowsOf(w)[order[j]] && rows[k] == RowsOf(w)[order[k]];
    }
  }

  /** So in every run, for a live Operation on the document, what changes the document is
      withheld exactly when no other kind of Operation is ahead of all such work. */
  lemma {:induction false} LiveWorkInRuns(
      steps: seq<Step>, order: seq<OperationId>, application: ApplicationId, c: ActionPolicy.Context,
      a: ActionPolicy.Action, k: nat)
    requires Lists(Execute(START, steps), order, application)
    requires c.operations == RowsInOrder(Execute(START, steps), order)
    requires k < |order| && Live(c.operations[k]) && ActsOnDocument(c.operations[k].kind)
    requires ActionPolicy.ChangesDocument(a)
    ensures ActionPolicy.DocumentOperationInProgress in ActionPolicy.Blockers(c, a) <==>
      ActionPolicy.Allowed(c, a) && !Overtaken(c.operations, ActionPolicy.DOCUMENT_OPERATION_TYPES)
    ensures c.operations[k].status.Running? ==>
      a !in ActionPolicy.AvailableIn(c, ActionPolicy.PREPARATION_ACTIONS)
  {
    OneOperationRuns(steps, order, application);
    ActionPolicy.LiveOperationHoldsTheDocument(c, a, k);
  }

  const TO_QUEUED_BEHIND := OperationGuarantees.TO_CLAIM +
    [Enqueue("d", "a", RegenerateSection, Some(HashOf(Body("b", Some("text"), None))))]

  /** Such rows are reached: an analysis runs and a section's regeneration is queued behind it;
      then the document may be edited although work on it is live. */
  lemma {:induction false} QueuedBehindIsReached(c: ActionPolicy.Context)
    requires !c.deleted && ActionPolicy.HasContent(c)
    requires "o" in Execute(START, TO_QUEUED_BEHIND).ops && "d" in Execute(START, TO_QUEUED_BEHIND).ops ==>
      c.operations == RowsInOrder(Execute(START, TO_QUEUED_BEHIND), ["o", "d"])
    ensures Lists(Execute(START, TO_QUEUED_BEHIND), ["o", "d"], "a")
    ensures AnyLive(c.operations, ActionPolicy.DOCUMENT_OPERATION_TYPES)
    ensures ActionPolicy.Edit in ActionPolicy.AvailableIn(c, ActionPolicy.PREPARATION_ACTIONS)
  {
    OperationGuarantees.FirstClaimed();
    ExecuteExtends(OperationGuarantees.TO_CLAIM, TO_QUEUED_BEHIND[4]);
    var w, v := Execute(START, OperationGuarantees.TO_CLAIM), Execute(START, TO_QUEUED_BEHIND);
    assert v == Apply(w, TO_QUEUED_BEHIND[4]);
    ActionPolicy.WorkQueuedBehindIsMissed(c, v.ops["o"].row, v.ops["d"].row);
  }
}
