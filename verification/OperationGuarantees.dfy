/** What every run of the Operation protocol guarantees its users. */
module OperationGuarantees {
  import opened Wrappers
  import opened OperationRows
  import opened OperationProtocol
  import opened OperationSafety

  /** Running means leased; one running Operation an Application; one running render. */
  lemma {:induction false} RunningIsLeasedAndExclusive(steps: seq<Step>)
    ensures var rows := RowsOf(Execute(START, steps));
            && Exclusive(rows)
            && (forall id :: id in rows ==> (rows[id].status.Running? <==> rows[id].lease.Some?))
            && (forall id :: id in rows ==> (Terminal(rows[id].status) <==> rows[id].finished))
  {
    ReachableHolds(steps);
    var w := Execute(START, steps);
    forall id | id in RowsOf(w)
      ensures ChecksHold(RowsOf(w)[id])
    {
      assert OpHolds(w.ops[id]);
    }
  }

  lemma {:induction false} TerminalRowsNeverChange(steps: seq<Step>, more: seq<Step>, id: OperationId)
    requires id in Execute(START, steps).ops && Terminal(Execute(START, steps).ops[id].row.status)
    ensures var v := Execute(START, steps + more); id in v.ops && v.ops[id].row == Execute(START, steps).ops[id].row
  {
    LaterFollows(steps, more);
  }

  /** Interrupted, cancelled, or only asked to stop: from then on the Operation never
      succeeds, never records an output and never writes a document. */
  lemma {:induction false} StoppedNeverSucceeds(steps: seq<Step>, more: seq<Step>, id: OperationId)
    requires id in Execute(START, steps).ops
    requires var row := Execute(START, steps).ops[id].row;
             row.cancelRequested || row.status.Interrupted? || row.status.Cancelled?
    ensures var v := Execute(START, steps + more);
            id in v.ops && !v.ops[id].row.status.Succeeded? && v.ops[id].row.outputs == [] && WritesBy(v.log, id) == 0
  {
    LaterFollows(steps, more);
    ReachableHolds(steps);
    ReachableHolds(steps + more);
    var o, later := Execute(START, steps).ops[id], Execute(START, steps + more).ops[id];
    assert OpHolds(o) && OpHolds(later) && Evolves(o, later);
    assert !Activated(Execute(START, steps + more), id);
  }

  /** The status tells what happened to the document: a succeeded Operation was activated
      and wrote once; any other wrote nothing and has no outputs. */
  lemma {:induction false} SucceededIsActivated(steps: seq<Step>, id: OperationId)
    requires id in Execute(START, steps).ops
    ensures var w := Execute(START, steps);
            var o := w.ops[id];
            && (o.row.status.Succeeded? <==> o.run.Some? && o.run.value.activated)
            && (o.row.outputs != [] ==> o.row.status.Succeeded?)
            && (!o.row.status.Succeeded? ==> WritesBy(w.log, id) == 0)
            && (o.row.status.Succeeded? && ActsOnDocument(o.row.kind) ==> WritesBy(w.log, id) == 1)
  {
    ReachableHolds(steps);
    assert OpHolds(Execute(START, steps).ops[id]);
  }

  predicate UsedOnce(run: Run) {
    (run.activated && run.discards == 0) || (!run.activated && run.discards == 1)
  }

  /** A prepared result is never used twice. When its execution ends it was either activated
      or discarded, once - except exactly when the read that checks for cancellation after
      the execution raised, or the process died. */
  lemma {:induction false} PreparedIsUsedOnce(steps: seq<Step>, id: OperationId)
    requires id in Execute(START, steps).ops
    requires var o := Execute(START, steps).ops[id]; o.run.Some? && o.run.value.prepared.Some?
    ensures var o := Execute(START, steps).ops[id];
            var run := o.run.value;
            && run.discards <= 1 && (run.activated ==> run.discards == 0)
            && (Over(run.pc) && !run.pc.Died? ==> (UsedOnce(run) <==> !run.pc.RaisedUnchecked?))
            && (Over(run.pc) && UsedOnce(run) ==> (run.activated <==> o.row.status.Succeeded?))
  {
    ReachableHolds(steps);
    assert OpHolds(Execute(START, steps).ops[id]);
  }

  /** The exception is real: a result whose second check raises is stranded in every
      continuation, neither activated nor discarded. */
  lemma {:induction false} FailedCheckStrandsTheResult(steps: seq<Step>, id: OperationId, more: seq<Step>)
    requires id in Execute(START, steps).ops && Stands(Execute(START, steps).ops[id], AtSecondCheck)
    ensures var v := Execute(START, steps + [SecondCheck(id, true)] + more);
            && id in v.ops && v.ops[id].run.Some?
            && v.ops[id].run.value.prepared == Execute(START, steps).ops[id].run.value.prepared
            && v.ops[id].run.value.prepared.Some?
            && !v.ops[id].run.value.activated && v.ops[id].run.value.discards == 0
  {
    FailedCheckRaises(steps, id);
    LaterFollows(steps + [SecondCheck(id, true)], more);
  }

  lemma {:induction false} FailedCheckRaises(steps: seq<Step>, id: OperationId)
    requires id in Execute(START, steps).ops && Stands(Execute(START, steps).ops[id], AtSecondCheck)
    ensures var o, raised := Execute(START, steps).ops[id], Execute(START, steps + [SecondCheck(id, true)]);
            && id in raised.ops && raised.ops[id].run.Some? && raised.ops[id].run.value.pc.RaisedUnchecked?
            && raised.ops[id].run.value.prepared == o.run.value.prepared && o.run.value.prepared.Some?
            && !raised.ops[id].run.value.activated && raised.ops[id].run.value.discards == 0
  {
    ReachableHolds(steps);
    assert OpHolds(Execute(START, steps).ops[id]);
    OneMoreTouch(steps, SecondCheck(id, true), id, SecondCheckOp(Execute(START, steps).ops[id], true));
  }

  const TO_CLAIM := [StartWorker("r"), Recover("r"), Enqueue("o", "a", AnalyzeJob, None), Claim("r", "o")]

  lemma {:induction false} FirstClaimed()
    ensures "o" in Execute(START, TO_CLAIM).ops
            && Execute(START, TO_CLAIM).ops == map["o" := Op(
                 Row("a", AnalyzeJob, None, Running, Some("r"), false, None, false, []),
                 Some(Run("r", AtVerify, false, None, 0, false)))]
            && Execute(START, TO_CLAIM).deleted == {}
  {
    var w1 := START.(slot := Some("r"), workers := map["r" := Recovering]);
    var w2 := w1.(workers := map["r" := Serving]);
    var w3 := w2.(ops := map["o" := Op(NewRow("a", AnalyzeJob, None), None)]);
    assert Execute(START, TO_CLAIM[..1]) == w1 by {
      assert TO_CLAIM[..1][..0] == [];
    }
    assert Execute(START, TO_CLAIM[..2]) == w2 by {
      assert TO_CLAIM[..2][..1] == TO_CLAIM[..1];
      assert AllInterrupted(w1).ops == map[];
    }
    assert Execute(START, TO_CLAIM[..3]) == w3 by {
      assert TO_CLAIM[..3][..2] == TO_CLAIM[..2];
    }
    assert ClaimGuardsAllow(RowsOf(w3), "o");
    assert TO_CLAIM[..3] == TO_CLAIM[..|TO_CLAIM| - 1];
  }

  /** Such executions exist: every claimed Operation outside the document's own can be
      brought there, with any prepared result. */
  lemma {:induction false} SecondCheckIsReached(steps: seq<Step>, id: OperationId, result: Prepared)
    requires id in Execute(START, steps).ops && Stands(Execute(START, steps).ops[id], AtVerify)
    requires var row := Execute(START, steps).ops[id].row; !row.cancelRequested && !ActsOnDocument(row.kind)
    ensures var verified := steps + [Verify(id, true, None)];
            var w := Execute(START, verified + [FirstCheck(id, false)] + [ExecuteReturns(id, result)]);
            id in w.ops && Stands(w.ops[id], AtSecondCheck) && w.ops[id].run.value.prepared == Some(result)
  {
    var verified := steps + [Verify(id, true, None)];
    var checked := verified + [FirstCheck(id, false)];
    var o := Execute(START, steps).ops[id];
    OneMoreTouch(steps, Verify(id, true, None), id, VerifyOp(o, true, None));
    OneMoreTouch(verified, FirstCheck(id, false), id, FirstCheckOp(VerifyOp(o, true, None), false));
    OneMoreTouch(
      checked, ExecuteReturns(id, result), id, ReturnOp(FirstCheckOp(VerifyOp(o, true, None), false), result));
  }

  lemma {:induction false} OneMoreTouch(steps: seq<Step>, step: Step, id: OperationId, o: Op)
    requires Touched(Execute(START, steps), step) == Some((id, o))
    ensures id in Execute(START, steps + [step]).ops && Execute(START, steps + [step]).ops[id] == o
  {
    ExecuteExtends(steps, step);
    TouchedApplies(Execute(START, steps), step);
  }

  /** Completion outside the activation succeeds without activating exactly when the
      Operation is still held and nobody asked it to stop: that no handler stops as cancelled
      before a poll told it to is what keeps succeeded and activated the same. */
  lemma {:induction false} UnaskedStopWouldSucceed(o: Op)
    requires OpHolds(o) && Stands(o, AtExecute)
    ensures var after := CompleteOp(Move(o, AtComplete(false)), true);
            !after.run.value.activated && (after.row.status.Succeeded? <==> !Lost(o))
  {
  }

  /** No lost update: every write replaces exactly what its author had read, and what an
      Operation read is the hash it froze when it was asked for. */
  lemma {:induction false} NoUpdateIsLost(steps: seq<Step>, k: nat)
    requires k < |Execute(START, steps).log|
    ensures var w := Execute(START, steps);
            && w.log[k].read == LastResult(w.log[..k], w.log[k].application)
            && FrozenBy(w, w.log[k])
            && Stored(w, w.log[k].application) == LastResult(w.log, w.log[k].application)
  {
    ReachableHolds(steps);
    var w := Execute(START, steps);
    assert DocumentsHold(w) && AuthorsHold(w);
    assert NothingLost(w.log);
  }

  // ----- what the client is offered -----

  /** What a retry needs besides a retryable row: a live Application, and the document it
      froze a hash of. */
  predicate RetryInputsExist(w: World, row: Row) {
    row.application !in w.deleted && (row.expected.Some? ==> row.application in w.documents)
  }

  /** Cancel is offered exactly when it would change something. Retry is offered whenever the
      command accepts it, and offered in vain exactly when the Application is deleted or the
      frozen document is gone. */
  lemma {:induction false} OffersMatchCommands(steps: seq<Step>, id: OperationId)
    requires id in Execute(START, steps).ops
    ensures var w := Execute(START, steps);
            var row := w.ops[id].row;
            && (OffersCancel(row) <==> CancelRequestedRow(row) != row)
            && (RetryIn(w, row).Ok? <==> OffersRetry(row) && RetryInputsExist(w, row))
            && (OffersRetry(row) && RetryIn(w, row).Err? ==>
                  RetryIn(w, row).error == if row.application in w.deleted then ApplicationDeleted else DocumentGone)
  {
    ReachableHolds(steps);
    assert OpHolds(Execute(START, steps).ops[id]);
  }

  const TO_DELETED := [Enqueue("o", "a", AnalyzeJob, None), RequestCancel("o"), DeleteApplication("a")]

  /** The offer does look past the deletion: a cancelled Operation of a deleted Application is
      offered a retry the command refuses. */
  lemma {:induction false} DeletedIsStillOffered()
    ensures var w := Execute(START, TO_DELETED);
            "o" in w.ops && OffersRetry(w.ops["o"].row) && RetryIn(w, w.ops["o"].row) == Err(ApplicationDeleted)
  {
    ExecuteExtends([], TO_DELETED[0]);
    ExecuteExtends([TO_DELETED[0]], TO_DELETED[1]);
    ExecuteExtends([TO_DELETED[0], TO_DELETED[1]], TO_DELETED[2]);
    assert [] + [TO_DELETED[0]] == [TO_DELETED[0]];
    assert [TO_DELETED[0]] + [TO_DELETED[1]] == [TO_DELETED[0], TO_DELETED[1]];
    assert [TO_DELETED[0], TO_DELETED[1]] + [TO_DELETED[2]] == TO_DELETED;
  }

  /** An accepted retry queues a new Operation of the same kind whose frozen document is the
      one there is; deleting the Application in between still stops it. */
  lemma {:induction false} RetryStartsAfresh(steps: seq<Step>, id: OperationId, anew: OperationId, external: bool)
    requires id in Execute(START, steps).ops && anew !in Execute(START, steps).ops
    requires RetryIn(Execute(START, steps), Execute(START, steps).ops[id].row).Ok?
    ensures var w := Execute(START, steps);
            var row, again := w.ops[id].row, RetryIn(w, w.ops[id].row).value;
            var enqueue := Enqueue(anew, again.application, again.kind, again.expected);
            && again.application == row.application && again.kind == row.kind
            && Apply(w, enqueue).ops == w.ops[anew := Op(again, None)] && again.status.Queued?
            && (ActsOnDocument(row.kind) && row.expected.Some? ==> SourcesHold(Apply(w, enqueue), again, external))
            && Apply(Apply(w, DeleteApplication(row.application)), enqueue).ops == w.ops
  {
  }

  /** Deletion is for good: from then on no retry is accepted and nothing is enqueued. */
  lemma {:induction false} DeletionIsFinal(steps: seq<Step>, more: seq<Step>, application: ApplicationId)
    requires application in Execute(START, steps).deleted
    ensures application in Execute(START, steps + more).deleted
    ensures forall row: Row :: row.application == application ==> RetryIn(Execute(START, steps + more), row).Err?
    ensures forall id: OperationId, kind: Kind, expected ::
      Apply(Execute(START, steps + more), Enqueue(id, application, kind, expected)) == Execute(START, steps + more)
  {
    if more == [] {
      assert steps + more == steps;
    } else {
      var shorter := more[..|more| - 1];
      DeletionIsFinal(steps, shorter, application);
      LastApart(steps, more);
      ExecuteExtends(steps + shorter, more[|more| - 1]);
      StepKeepsDeleted(Execute(START, steps + shorter), more[|more| - 1]);
    }
  }

  lemma {:induction false} StepKeepsDeleted(w: World, step: Step)
    ensures w.deleted <= Apply(w, step).deleted
  {
    if step.Activate? && step.id in w.ops {
      ActivationKeepsDeleted(w, step.id, step.external, step.accepts, step.refusal, step.commits);
    } else if Touched(w, step).Some? {
      TouchedApplies(w, step);
    }
  }

  lemma {:induction false} ActivationKeepsDeleted(
      w: World, id: OperationId, external: bool, accepts: bool, refusal: FailureCode, commits: bool)
    ensures Apply(w, Activate(id, external, accepts, refusal, commits)).deleted == w.deleted
  {
  }
}
