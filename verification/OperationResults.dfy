/** What a succeeded Operation leaves (application/operation_runner.py, services/drafts/activation.py,
    services/analysis/activation.py): the result its execution prepared, in the document and in its
    own outputs. */
module OperationResults {
  import opened Wrappers
  import opened OperationRows
  import opened OperationProtocol
  import opened OperationSafety
  import opened OperationGuarantees

  // ----- what is left -----

  predicate Generates(kind: Kind) {
    kind.CreateDraft? || kind.RegenerateSection? || kind.RegenerateClaim?
  }

  /** What an execution of this kind leaves of the document it read, having prepared `content`:
      generated content under the same analysis and template - a first draft only where there was
      none -, a rendered document as it was, a first document on a new analysis; nothing else
      writes one. */
  predicate Leaves(kind: Kind, read: Option<Body>, result: Body, content: string) {
    if Generates(kind) then
      && read.Some? && result == Body(read.value.analysis, Some(content), read.value.template)
      && (kind.CreateDraft? ==> read.value.content.None?)
    else if kind.RenderDocument? then read == Some(result)
    else kind.AnalyzeJob? && read.None? && result.analysis == content && result.content.None?
  }

  /** The execution's prepared result is what the row records as its outputs. */
  predicate Delivered(o: Op) {
    && o.run.Some? && o.run.value.prepared.Some? && o.run.value.prepared.value.Prepared?
    && o.row.outputs == o.run.value.prepared.value.outputs
  }

  predicate WriteDelivers(w: World, write: Write) {
    match write.author
    case User => true
    case Execution(id) =>
      && id in w.ops && w.ops[id].row.status.Succeeded? && Delivered(w.ops[id])
      && w.ops[id].row.application == write.application
      && Leaves(w.ops[id].row.kind, write.read, write.result, w.ops[id].run.value.prepared.value.content)
  }

  /** Every succeeded Operation delivered, and every document an execution wrote holds what it
      prepared. */
  ghost predicate ResultsHold(w: World) {
    && (forall id :: id in w.ops && w.ops[id].row.status.Succeeded? ==> Delivered(w.ops[id]))
    && forall k :: 0 <= k < |w.log| ==> WriteDelivers(w, w.log[k])
  }

  // ----- the activating step -----

  /** What an activation changes, told apart by kind: the row succeeds with the prepared
      outputs; the document holds the prepared content, or is as it was. */
  lemma {:induction false} ActivationLeaves(
      w: World, id: OperationId, external: bool, accepts: bool, refusal: FailureCode, commits: bool)
    requires Inv(w) && id in w.ops
    requires Activates(w.ops[id], VerdictOf(w, w.ops[id].row, external, accepts, refusal, commits))
    ensures var v := Apply(w, Activate(id, external, accepts, refusal, commits));
            var row, prepared := w.ops[id].row, w.ops[id].run.value.prepared.value;
            && v.ops[id].row.status.Succeeded? && v.ops[id].row.outputs == prepared.outputs
            && v.ops[id].run.value.prepared == Some(prepared)
            && (forall other :: other in w.ops && other != id ==> v.ops[other] == w.ops[other])
            && (forall other :: other != row.application ==> Stored(v, other) == Stored(w, other))
            && (Generates(row.kind) ==>
                  Stored(w, row.application).Some?
                  && (row.kind.CreateDraft? ==> Stored(w, row.application).value.content.None?) &&
                  var read := Stored(w, row.application).value;
                  Stored(v, row.application) == Some(Body(read.analysis, Some(prepared.content), read.template)))
            && (row.kind.AnalyzeJob? && Stored(w, row.application).None? ==>
                  Stored(v, row.application) ==
                    Some(Body(prepared.content, None, DefaultTemplate(w, row.application))))
            && (row.kind.AnalyzeJob? && Stored(w, row.application).Some? ==>
                  Stored(v, row.application) == Stored(w, row.application))
            && (row.kind.RenderDocument? || row.kind.AskGapQuestions? || row.kind.DraftGapFact? ==>
                  Stored(v, row.application) == Stored(w, row.application))
  {
    assert OpHolds(w.ops[id]);
    ActivationWrites(w, id, external, accepts, refusal, commits);
    ActivationReadsTheStored(w, id, external, accepts, refusal, commits);
  }

  lemma {:induction false} ActivationLogs(
      w: World, id: OperationId, external: bool, accepts: bool, refusal: FailureCode, commits: bool)
    requires Inv(w) && id in w.ops
    requires Activates(w.ops[id], VerdictOf(w, w.ops[id].row, external, accepts, refusal, commits))
    ensures var v := Apply(w, Activate(id, external, accepts, refusal, commits));
            && Delivered(v.ops[id])
            && |v.log| <= |w.log| + 1
            && (|v.log| == |w.log| + 1 ==> WriteDelivers(v, v.log[|w.log|]))
  {
    assert OpHolds(w.ops[id]);
    ActivationWrites(w, id, external, accepts, refusal, commits);
    ActivationReadsTheStored(w, id, external, accepts, refusal, commits);
  }

  // ----- every step -----

  /** A succeeded Operation has delivered for good. */
  lemma {:induction false} DeliveredStays(w: World, v: World, id: OperationId)
    requires Inv(w) && Follows(w, v) && id in w.ops && w.ops[id].row.status.Succeeded? && Delivered(w.ops[id])
    ensures id in v.ops && v.ops[id] == w.ops[id]
  {
    assert OpHolds(w.ops[id]) && Evolves(w.ops[id], v.ops[id]);
  }

  lemma {:induction false} WritesStayDelivered(w: World, v: World, k: nat)
    requires Inv(w) && ResultsHold(w) && Follows(w, v) && k < |w.log|
    ensures k < |v.log| && WriteDelivers(v, v.log[k])
  {
    assert WriteDelivers(w, w.log[k]);
    match w.log[k].author
    case User =>
    case Execution(id) => DeliveredStays(w, v, id);
  }

  predicate ActivatesNow(w: World, step: Step, id: OperationId) {
    step.Activate? && step.id == id && id in w.ops && Activates(
      w.ops[id], VerdictOf(w, w.ops[id].row, step.external, step.accepts, step.refusal, step.commits))
  }

  lemma {:induction false} QuietActivatesNone(w: World, v: World, id: OperationId)
    requires AllQuiet(w, v)
    ensures Activated(v, id) ==> Activated(w, id)
  {
    if id in w.ops {
      assert Steady(w.ops[id], v.ops[id]);
    }
  }

  /** Only an activation activates, and only its own Operation. */
  lemma {:induction false} OnlyActivationActivates(w: World, step: Step, id: OperationId)
    requires Inv(w)
    ensures Activated(Apply(w, step), id) ==> Activated(w, id) || ActivatesNow(w, step, id)
  {
    if Touched(w, step).Some? {
      TouchedIsQuiet(w, step);
      QuietActivatesNone(w, Apply(w, step), id);
    } else if (step.Recover? || step.Kill?) && Apply(w, step) != w {
      SweepIsQuiet(w, Apply(w, step), step.runner);
      QuietActivatesNone(w, Apply(w, step), id);
    } else if step.Activate? {
      ActivationActivates(w, step, id);
    } else if !step.Recover? && !step.Kill? && !step.Enqueue? && !step.UserWrite? && !step.Claim? {
      BystanderStepChangesNoOperation(w, step);
    }
  }

  lemma {:induction false} ActivationActivates(w: World, step: Step, id: OperationId)
    requires Inv(w) && step.Activate?
    ensures Activated(Apply(w, step), id) ==> Activated(w, id) || ActivatesNow(w, step, id)
  {
    if ActivatesNow(w, step, step.id) {
      assert OpHolds(w.ops[step.id]);
      ActivationWrites(w, step.id, step.external, step.accepts, step.refusal, step.commits);
    } else {
      RefusedActivationIsQuiet(w, step.id, step.external, step.accepts, step.refusal, step.commits);
      QuietActivatesNone(w, Apply(w, step), id);
    }
  }

  lemma {:induction false} OnlyActivationSucceeds(w: World, step: Step, id: OperationId)
    requires Inv(w) && id in Apply(w, step).ops && Apply(w, step).ops[id].row.status.Succeeded?
    ensures (id in w.ops && w.ops[id].row.status.Succeeded?) || ActivatesNow(w, step, id)
  {
    StepKeeps(w, step);
    assert OpHolds(Apply(w, step).ops[id]);
    OnlyActivationActivates(w, step, id);
    if id in w.ops {
      assert OpHolds(w.ops[id]);
    }
  }

  lemma {:induction false} OnlyActivationWrites(w: World, step: Step)
    requires Inv(w) && !step.UserWrite?
    requires step.Activate? ==> !ActivatesNow(w, step, step.id)
    ensures Apply(w, step).log == w.log
  {
    if Touched(w, step).Some? {
      TouchedIsQuiet(w, step);
    } else if step.Activate? {
      RefusedActivationIsQuiet(w, step.id, step.external, step.accepts, step.refusal, step.commits);
    } else if !step.Recover? && !step.Kill? && !step.Enqueue? && !step.Claim? {
      BystanderStepChangesNoOperation(w, step);
    }
  }

  lemma {:induction false} StepDelivers(w: World, step: Step)
    requires Inv(w) && ResultsHold(w)
    ensures ResultsHold(Apply(w, step))
  {
    var v := Apply(w, step);
    StepKeeps(w, step);
    forall id | id in v.ops && v.ops[id].row.status.Succeeded?
      ensures Delivered(v.ops[id])
    {
      OnlyActivationSucceeds(w, step, id);
      if id in w.ops && w.ops[id].row.status.Succeeded? {
        DeliveredStays(w, v, id);
      } else {
        ActivationLogs(w, id, step.external, step.accepts, step.refusal, step.commits);
      }
    }
    forall k | 0 <= k < |v.log|
      ensures WriteDelivers(v, v.log[k])
    {
      if k < |w.log| {
        WritesStayDelivered(w, v, k);
      } else {
        NewWriteDelivers(w, step, k);
      }
    }
  }

  lemma {:induction false} NewWriteDelivers(w: World, step: Step, k: nat)
    requires Inv(w) && |w.log| <= k < |Apply(w, step).log|
    ensures WriteDelivers(Apply(w, step), Apply(w, step).log[k])
  {
    if step.UserWrite? {
    } else if step.Activate? && ActivatesNow(w, step, step.id) {
      ActivationLogs(w, step.id, step.external, step.accepts, step.refusal, step.commits);
    } else {
      OnlyActivationWrites(w, step);
    }
  }

  lemma {:induction false} ReachableDelivers(steps: seq<Step>)
    ensures ResultsHold(Execute(START, steps))
  {
    if steps != [] {
      ReachableDelivers(steps[..|steps| - 1]);
      ReachableHolds(steps[..|steps| - 1]);
      StepDelivers(Execute(START, steps[..|steps| - 1]), steps[|steps| - 1]);
    }
  }

  // ----- which template a first document takes -----

  /** Step i is the owner's last choice for this Application. */
  ghost predicate ChosenLast(steps: seq<Step>, i: int, application: ApplicationId) {
    && 0 <= i < |steps| && Chooses(steps[i], application)
    && forall j :: i < j < |steps| ==> !Chooses(steps[j], application)
  }

  predicate Chooses(step: Step, application: ApplicationId) {
    step.ChooseTemplate? && step.application == application
  }

  lemma {:induction false} StepKeepsTemplates(w: World, step: Step)
    requires !step.ChooseTemplate?
    ensures Apply(w, step).templates == w.templates
  {
  }

  /** In any run the default template is what the owner chose last, and none before any choice. */
  lemma {:induction false} DefaultIsChosenLast(steps: seq<Step>, application: ApplicationId)
    ensures DefaultTemplate(Execute(START, steps), application).Some? ==>
      exists i :: ChosenLast(steps, i, application)
    ensures forall i :: ChosenLast(steps, i, application) ==>
      DefaultTemplate(Execute(START, steps), application) == steps[i].template
  {
    if steps != [] {
      var shorter, last := steps[..|steps| - 1], steps[|steps| - 1];
      DefaultIsChosenLast(shorter, application);
      if Chooses(last, application) {
        assert ChosenLast(steps, |steps| - 1, application);
      } else {
        if !last.ChooseTemplate? {
          StepKeepsTemplates(Execute(START, shorter), last);
        }
        ChosenOneMore(steps, application);
        if DefaultTemplate(Execute(START, shorter), application).Some? {
          var i :| ChosenLast(shorter, i, application);
          assert ChosenLast(steps, i, application);
        }
      }
    }
  }

  lemma {:induction false} ChosenOneMore(steps: seq<Step>, application: ApplicationId)
    requires steps != [] && !Chooses(steps[|steps| - 1], application)
    ensures forall i :: ChosenLast(steps, i, application) <==> ChosenLast(steps[..|steps| - 1], i, application)
  {
    var shorter := steps[..|steps| - 1];
    forall i
      ensures ChosenLast(steps, i, application) <==> ChosenLast(shorter, i, application)
    {
      assert forall k :: 0 <= k < |shorter| ==> shorter[k] == steps[k];
    }
  }

  // ----- how the others end -----

  function FailedWith(row: Row, code: FailureCode): Row {
    row.(status := Failed, failure := Some(code), finished := true, lease := None)
  }

  /** Sources that no longer hold when the execution begins fail the Operation as changed. */
  lemma {:induction false} ChangedSourcesFail(steps: seq<Step>, id: OperationId, external: bool)
    requires id in Execute(START, steps).ops && Stands(Execute(START, steps).ops[id], AtVerify)
    requires Owned(Execute(START, steps).ops[id])
    requires !SourcesHold(Execute(START, steps), Execute(START, steps).ops[id].row, external)
    ensures var v := Execute(START, steps + [Verify(id, external, None)] + [Fail(id, true)]);
            id in v.ops && v.ops[id].row == FailedWith(Execute(START, steps).ops[id].row, SourceChanged)
  {
    var o := Execute(START, steps).ops[id];
    var verified := VerifyOp(o, false, None);
    OneMoreTouch(steps, Verify(id, external, None), id, verified);
    OneMoreTouch(steps + [Verify(id, external, None)], Fail(id, true), id, FailOp(verified, true));
  }

  /** A handler that breaks fails the Operation with the code it broke with. */
  lemma {:induction false} BrokenHandlerFails(steps: seq<Step>, id: OperationId, code: FailureCode)
    requires id in Execute(START, steps).ops && Stands(Execute(START, steps).ops[id], AtExecute)
    requires Owned(Execute(START, steps).ops[id]) && code != CancelledBeforeActivation
    ensures var v := Execute(START, steps + [ExecuteRaises(id, code)] + [Fail(id, true)]);
            id in v.ops && v.ops[id].row == FailedWith(Execute(START, steps).ops[id].row, code)
  {
    var raised := RaiseOp(Execute(START, steps).ops[id], code);
    OneMoreTouch(steps, ExecuteRaises(id, code), id, raised);
    OneMoreTouch(steps + [ExecuteRaises(id, code)], Fail(id, true), id, FailOp(raised, true));
  }

  /** An Operation asked to stop before its handler began is cancelled without running it. */
  lemma {:induction false} RequestedStopCancels(steps: seq<Step>, id: OperationId)
    requires id in Execute(START, steps).ops && Stands(Execute(START, steps).ops[id], AtFirstCheck)
    requires Owned(Execute(START, steps).ops[id]) && Execute(START, steps).ops[id].row.cancelRequested
    ensures var row := Execute(START, steps).ops[id].row;
            var v := Execute(START, steps + [FirstCheck(id, false)] + [Complete(id, true)]);
            && id in v.ops && v.ops[id].run.Some? && v.ops[id].run.value.prepared.None?
            && v.ops[id].row == row.(
                 status := Cancelled, failure := Some(CancelledBeforeActivation), finished := true, lease := None)
  {
    ReachableHolds(steps);
    StoppedAtFirstCheck(Execute(START, steps).ops[id]);
    CheckThenComplete(steps, id);
  }

  lemma {:induction false} CheckThenComplete(steps: seq<Step>, id: OperationId)
    requires id in Execute(START, steps).ops && Stands(Execute(START, steps).ops[id], AtFirstCheck)
    ensures var v := Execute(START, steps + [FirstCheck(id, false)] + [Complete(id, true)]);
            id in v.ops && v.ops[id] == CompleteOp(FirstCheckOp(Execute(START, steps).ops[id], false), true)
  {
    var checked := FirstCheckOp(Execute(START, steps).ops[id], false);
    OneMoreTouch(steps, FirstCheck(id, false), id, checked);
    OneMoreTouch(steps + [FirstCheck(id, false)], Complete(id, true), id, CompleteOp(checked, true));
  }

  lemma {:induction false} StoppedAtFirstCheck(o: Op)
    requires OpHolds(o) && Stands(o, AtFirstCheck) && Owned(o) && o.row.cancelRequested
    ensures var done := CompleteOp(FirstCheckOp(o, false), true);
            && done.run.Some? && done.run.value.prepared.None?
            && done.row == o.row.(
                 status := Cancelled, failure := Some(CancelledBeforeActivation), finished := true, lease := None)
  {
  }

  /** A result whose sources changed while it was prepared is discarded, the Operation fails as
      changed, and no document is touched. */
  lemma {:induction false} StaleResultIsDiscarded(
      steps: seq<Step>, id: OperationId, external: bool, accepts: bool, refusal: FailureCode)
    requires id in Execute(START, steps).ops && Stands(Execute(START, steps).ops[id], AtActivate)
    requires Owned(Execute(START, steps).ops[id])
    requires !SourcesHold(Execute(START, steps), Execute(START, steps).ops[id].row, external)
    ensures var w := Execute(START, steps);
            var activated := steps + [Activate(id, external, accepts, refusal, true)];
            var v := Execute(START, activated + [Discard(id)] + [Fail(id, true)]);
            && Execute(START, activated).documents == w.documents
            && id in v.ops && v.ops[id].row == FailedWith(w.ops[id].row, SourceChanged)
            && v.ops[id].run.Some? && v.ops[id].run.value.discards == 1 && !v.ops[id].run.value.activated
  {
    var step := Activate(id, external, accepts, refusal, true);
    ReachableHolds(steps);
    assert OpHolds(Execute(START, steps).ops[id]);
    ExecuteExtends(steps, step);
    StaleActivation(Execute(START, steps), id, external, accepts, refusal);
    DiscardThenFail(steps + [step], id, SourceChanged);
  }

  lemma {:induction false} DiscardThenFail(steps: seq<Step>, id: OperationId, code: FailureCode)
    requires id in Execute(START, steps).ops && Stands(Execute(START, steps).ops[id], AtDiscard(AtFail(code)))
    requires Owned(Execute(START, steps).ops[id])
    ensures var o := Execute(START, steps).ops[id];
            var v := Execute(START, steps + [Discard(id)] + [Fail(id, true)]);
            && id in v.ops && v.ops[id].row == FailedWith(o.row, code)
            && v.ops[id].run == Some(o.run.value.(pc := Returned, discards := o.run.value.discards + 1))
  {
    var discarded := DiscardOp(Execute(START, steps).ops[id]);
    OneMoreTouch(steps, Discard(id), id, discarded);
    OneMoreTouch(steps + [Discard(id)], Fail(id, true), id, FailOp(discarded, true));
  }

  lemma {:induction false} StaleActivation(
      w: World, id: OperationId, external: bool, accepts: bool, refusal: FailureCode)
    requires id in w.ops && Stands(w.ops[id], AtActivate) && !SourcesHold(w, w.ops[id].row, external)
    ensures var v := Apply(w, Activate(id, external, accepts, refusal, true));
            && v.documents == w.documents && id in v.ops
            && v.ops[id] == Move(w.ops[id], AtDiscard(AtFail(SourceChanged)))
  {
  }

  // ----- what that means -----

  lemma {:induction false} WriteIsLogged(log: seq<Write>, id: OperationId)
    ensures WritesBy(log, id) > 0 ==> exists k :: 0 <= k < |log| && log[k].author == Execution(id)
  {
    if log != [] {
      WriteIsLogged(log[..|log| - 1], id);
      assert log == log[..|log| - 1] + [log[|log| - 1]];
    }
  }

  /** In every run: a succeeded Operation recorded the outputs it prepared. One that generates
      content wrote the content it prepared over the document whose hash it had frozen, under
      the same analysis and template; a render left that document as it was. */
  lemma {:induction false} SucceededLeavesItsResult(steps: seq<Step>, id: OperationId)
    requires id in Execute(START, steps).ops && Execute(START, steps).ops[id].row.status.Succeeded?
    ensures var w := Execute(START, steps);
            var row := w.ops[id].row;
            && Delivered(w.ops[id])
            && (ActsOnDocument(row.kind) ==> exists k ::
                  && 0 <= k < |w.log| && w.log[k].author == Execution(id) && w.log[k].application == row.application
                  && w.log[k].read.Some? && row.expected == Some(HashOf(w.log[k].read.value))
                  && (row.kind.CreateDraft? ==> w.log[k].read.value.content.None?)
                  && w.log[k].result ==
                       if row.kind.RenderDocument? then w.log[k].read.value
                       else w.log[k].read.value.(content := Some(w.ops[id].run.value.prepared.value.content)))
            && (forall k :: 0 <= k < |w.log| && w.log[k].author == Execution(id) ==>
                  ActsOnDocument(row.kind) ||
                  (row.kind.AnalyzeJob? && w.log[k].read.None? && w.log[k].result.content.None?
                   && w.log[k].result.analysis == w.ops[id].run.value.prepared.value.content))
  {
    var w := Execute(START, steps);
    ReachableHolds(steps);
    ReachableDelivers(steps);
    assert OpHolds(w.ops[id]);
    WriteIsLogged(w.log, id);
    forall k | 0 <= k < |w.log| && w.log[k].author == Execution(id)
      ensures WriteDelivers(w, w.log[k]) && FrozenBy(w, w.log[k])
    {
    }
    if ActsOnDocument(w.ops[id].row.kind) {
      assert Activated(w, id) && WritesBy(w.log, id) == 1;
    }
  }
}
