/** `OperationRunner.run_claimed` as it is written, against the step machine
    (application/operation_runner.py).

    Its exceptions are results; between two of its transactions the rest of the system may
    take any steps at all, except end this very process. */
module OperationRunner {
  import opened Wrappers
  import opened OperationRows
  import opened OperationProtocol
  import opened OperationSafety
  import opened OperationGuarantees

  /** A step this execution does not take itself and that does not kill its process. */
  predicate Elsewhere(step: Step, id: OperationId, runner: RunnerId) {
    match step
    case Kill(other) => other != runner
    case Verify(other, _, _) => other != id
    case FirstCheck(other, _) => other != id
    case Poll(other) => other != id
    case ExecuteReturns(other, _) => other != id
    case ExecuteRaises(other, _) => other != id
    case SecondCheck(other, _) => other != id
    case Activate(other, _, _, _, _) => other != id
    case Discard(other) => other != id
    case Complete(other, _) => other != id
    case Fail(other, _) => other != id
    case _ => true
  }

  /** The rest of the system can reach an execution's row, never its progress. */
  lemma {:induction false} ElsewhereLeavesTheRun(w: World, step: Step, id: OperationId)
    requires id in w.ops && OpHolds(w.ops[id]) && w.ops[id].run.Some?
    requires Elsewhere(step, id, w.ops[id].run.value.runner)
    ensures id in Apply(w, step).ops && Apply(w, step).ops[id].run == w.ops[id].run
    ensures Terminal(w.ops[id].row.status) ==> Apply(w, step).ops[id].row == w.ops[id].row
  {
    if Touched(w, step).Some? {
      TouchedApplies(w, step);
    } else if !step.Recover? && !step.Kill? && !step.Enqueue? && !step.UserWrite? && !step.Claim? && !step.Activate? {
      BystanderStepChangesNoOperation(w, step);
    } else if step.Activate? {
      OtherActivation(w, step, id);
    }
  }

  lemma {:induction false} OtherActivation(w: World, step: Step, id: OperationId)
    requires id in w.ops && step.Activate? && step.id != id
    ensures id in Apply(w, step).ops && Apply(w, step).ops[id] == w.ops[id]
  {
  }

  lemma {:induction false} ReachableOpHolds(steps: seq<Step>, id: OperationId)
    requires id in Execute(START, steps).ops
    ensures OpHolds(Execute(START, steps).ops[id])
  {
    ReachableHolds(steps);
  }

  /** What the activating step makes of its execution. */
  lemma {:induction false} ActivatedAs(
      w: World, id: OperationId, external: bool, accepts: bool, refusal: FailureCode, commits: bool)
    requires id in w.ops && Stands(w.ops[id], AtActivate)
    ensures var o := w.ops[id];
            var v := Apply(w, Activate(id, external, accepts, refusal, commits));
            && id in v.ops && RunBy(v.ops[id], o.run.value.runner)
            && v.ops[id] == ActivateOp(o, VerdictOf(w, o.row, external, accepts, refusal, commits))
  {
  }

  /** How the handler's work ends when no poll stops it first. */
  datatype Outcome = Delivers(prepared: Prepared) | Breaks(code: FailureCode)

  function AfterExecute(outcome: Outcome): Pc {
    match outcome
    case Delivers(_) => AtSecondCheck
    case Breaks(code) => if code == CancelledBeforeActivation then AtComplete(false) else AtFail(code)
  }

  /** What the handler and the database do to one execution: whether outside sources hold,
      which exceptions rise, how often the handler polls and with what code it stops when a
      later poll tells it to, and which transactions commit. */
  datatype Script = Script(
    external: bool, crash: Option<FailureCode>, firstReadFails: bool,
    retries: nat, lostCode: FailureCode, outcome: Outcome,
    secondReadFails: bool, stillExternal: bool, accepts: bool, refusal: FailureCode, activationCommits: bool,
    completeCommits: bool, failCommits: bool)

  /** Only a poll makes a handler stop as cancelled. */
  predicate HandlerDiscipline(script: Script) {
    script.crash != Some(CancelledBeforeActivation) && script.outcome != Breaks(CancelledBeforeActivation)
  }

  class Runner {
    const runnerId: RunnerId
    var world: World
    var others: seq<seq<Step>>
    ghost var trace: seq<Step>

    constructor (runnerId: RunnerId, world: World, others: seq<seq<Step>>, ghost trace: seq<Step>)
      requires world == Execute(START, trace)
      ensures this.runnerId == runnerId && this.world == world && this.others == others && this.trace == trace
    {
      this.runnerId, this.world, this.others, this.trace := runnerId, world, others, trace;
    }

    /** The world is a reachable one, and `trace` is how it was reached. */
    ghost predicate Ran()
      reads this
    {
      world == Execute(START, trace)
    }

    /** `id` is this runner's to execute, and stands at `pc`. */
    ghost predicate At(id: OperationId, pc: Pc)
      reads this
    {
      && Ran() && id in world.ops && Stands(world.ops[id], pc) && RunBy(world.ops[id], runnerId)
      && forall k :: 0 <= k < |others| ==> forall step :: step in others[k] ==> Elsewhere(step, id, runnerId)
    }

    method Take(step: Step)
      requires Ran()
      modifies this`world, this`trace
      ensures Ran() && world == Apply(old(world), step) && trace == old(trace) + [step]
    {
      ExecuteExtends(trace, step);
      trace := trace + [step];
      world := Apply(world, step);
    }

    /** Between two transactions: the next batch of what everyone else does. */
    method Pause(id: OperationId, ghost pc: Pc)
      requires At(id, pc)
      modifies this
      ensures At(id, pc) && world.ops[id].run == old(world.ops[id].run)
      ensures Terminal(old(world.ops[id].row.status)) ==> world.ops[id].row == old(world.ops[id].row)
    {
      if others != [] {
        var batch := others[0];
        ghost var was := world.ops[id];
        assert forall step :: step in batch ==> Elsewhere(step, id, runnerId);
        others := others[1..];
        for k := 0 to |batch|
          invariant At(id, pc) && world.ops[id].run == was.run
          invariant Terminal(was.row.status) ==> world.ops[id].row == was.row
        {
          assert batch[k] in batch;
          ReachableOpHolds(trace, id);
          ElsewhereLeavesTheRun(world, batch[k], id);
          Take(batch[k]);
        }
      }
    }

    /** How an ending leaves the execution: over, with its result exactly when it returned. */
    ghost predicate Ended(id: OperationId, result: Option<Row>)
      reads this
    {
      && Ran() && id in world.ops && RunBy(world.ops[id], runnerId) && Over(world.ops[id].run.value.pc)
      && !world.ops[id].run.value.pc.Died?
      && (result.Some? <==> world.ops[id].run.value.pc.Returned?)
      && (result.Some? ==> result.value == world.ops[id].row && Terminal(result.value.status))
    }

    method FailOperation(id: OperationId, code: FailureCode, commits: bool)
      returns (result: Option<Row>)
      requires At(id, AtFail(code))
      modifies this
      ensures Ended(id, result)
    {
      Pause(id, AtFail(code));
      var held := OwnedBy(world.ops[id].row, runnerId) && commits;
      Take(Fail(id, commits));
      result := if held then Some(world.ops[id].row) else None;
    }

    method CompleteOperation(id: OperationId, commits: bool, ghost guarded: bool)
      returns (result: Option<Row>)
      requires At(id, AtComplete(guarded))
      modifies this
      ensures result.Some? || !guarded ==> Ended(id, result)
      ensures result.None? && guarded ==> At(id, AtFail(ExecutionFailed))
    {
      Pause(id, AtComplete(guarded));
      var held := OwnedBy(world.ops[id].row, runnerId) && commits;
      Take(Complete(id, commits));
      result := if held then Some(world.ops[id].row) else None;
    }

    /** `still_owned`, asked by the handler. */
    method PollStill(id: OperationId) returns (owned: bool)
      requires At(id, AtExecute)
      modifies this
      ensures At(id, AtExecute)
      ensures !owned ==> world.ops[id].run.value.sawLost
    {
      Pause(id, AtExecute);
      owned := OwnedBy(world.ops[id].row, runnerId) && !world.ops[id].row.cancelRequested;
      Take(Poll(id));
    }

    /** How the handler ends when nothing stops it, or after a poll told it that it lost. */
    method EndExecution(id: OperationId, outcome: Outcome)
      requires At(id, AtExecute)
      requires outcome == Breaks(CancelledBeforeActivation) ==> world.ops[id].run.value.sawLost
      modifies this
      ensures At(id, AfterExecute(outcome))
      ensures outcome.Delivers? ==> world.ops[id].run.value.prepared == Some(outcome.prepared)
    {
      Pause(id, AtExecute);
      match outcome {
        case Delivers(prepared) => Take(ExecuteReturns(id, prepared));
        case Breaks(code) => Take(ExecuteRaises(id, code));
      }
    }

    /** The handler's work: lost before it began it delivers nothing, lost before a retry it
        raises. */
    method ExecuteHandler(id: OperationId, script: Script) returns (result: Outcome)
      requires HandlerDiscipline(script) && At(id, AtExecute)
      modifies this
      ensures At(id, AfterExecute(result))
      ensures result.Delivers? ==> world.ops[id].run.value.prepared == Some(result.prepared)
    {
      result := script.outcome;
      var owned := PollStill(id);
      if !owned {
        result := Delivers(Nothing);
      } else {
        for k := 0 to script.retries
          invariant At(id, AtExecute)
          invariant result == script.outcome
        {
          owned := PollStill(id);
          if !owned {
            result := Breaks(script.lostCode);
            break;
          }
        }
      }
      EndExecution(id, result);
    }

    /** `_cancelled`: a read that may itself raise. */
    method Cancelled(id: OperationId, second: bool, readFails: bool) returns (asked: Option<bool>)
      requires At(id, if second then AtSecondCheck else AtFirstCheck)
      modifies this
      ensures asked.None? <==> readFails
      ensures asked.None? && second ==> Ended(id, None)
      ensures asked.None? && !second ==> At(id, AtFail(ExecutionFailed))
      ensures asked.Some? && second ==> At(id, if asked.value then AtDiscard(AtComplete(false)) else AtActivate)
      ensures asked.Some? && !second ==> At(id, if asked.value then AtComplete(true) else AtExecute)
      ensures asked.Some? && second ==> world.ops[id].run.value.prepared == old(world.ops[id].run.value.prepared)
    {
      Pause(id, if second then AtSecondCheck else AtFirstCheck);
      asked := if readFails then None else Some(world.ops[id].row.cancelRequested);
      Take(if second then SecondCheck(id, readFails) else FirstCheck(id, readFails));
    }

    method DiscardResult(id: OperationId, ghost next: Pc)
      requires At(id, AtDiscard(next))
      modifies this
      ensures At(id, next)
      ensures Terminal(old(world.ops[id].row.status)) ==> world.ops[id].row == old(world.ops[id].row)
    {
      Pause(id, AtDiscard(next));
      Take(Discard(id));
    }

    /** `_activate`: one transaction. Sources and cancellation are asked again, then the
        handler, then completion; an exception leaves nothing of it. */
    method ActivateResult(id: OperationId, script: Script) returns (result: Result<Row, FailureCode>)
      requires At(id, AtActivate)
      modifies this
      ensures result.Err? ==> At(id, AtDiscard(AtFail(result.error)))
      ensures result.Ok? && result.value.status.Succeeded? ==> At(id, Returned)
      ensures result.Ok? && !result.value.status.Succeeded? ==> At(id, AtDiscard(Returned))
      ensures result.Ok? ==> result.value == world.ops[id].row && Terminal(result.value.status)
    {
      Pause(id, AtActivate);
      var row := world.ops[id].row;
      var prepared := world.ops[id].run.value.prepared;
      var held := SourcesHold(world, row, script.stillExternal);
      var accepted := HandlerAccepts(world, row, script.accepts) && prepared.Some? && prepared.value.Prepared?;
      ActivatedAs(world, id, script.stillExternal, script.accepts, script.refusal, script.activationCommits);
      Take(Activate(id, script.stillExternal, script.accepts, script.refusal, script.activationCommits));
      if !held {
        return Err(SourceChanged);
      }
      if !row.cancelRequested && !accepted {
        return Err(script.refusal);
      }
      if !OwnedBy(row, runnerId) || !script.activationCommits {
        return Err(script.refusal);
      }
      return Ok(world.ops[id].row);
    }

    /** After the second check: activate, and clean up whatever did not succeed. */
    method ActivateOrDiscard(id: OperationId, script: Script) returns (result: Option<Row>)
      requires At(id, AtActivate)
      modifies this
      ensures Ended(id, result)
    {
      var activation := ActivateResult(id, script);
      match activation {
        case Err(code) =>
          DiscardResult(id, AtFail(code));
          result := FailOperation(id, code, script.failCommits);
        case Ok(row) =>
          result := Some(row);
          if !row.status.Succeeded? {
            DiscardResult(id, Returned);
          }
      }
    }

    method VerifySources(id: OperationId, script: Script) returns (failed: Option<FailureCode>)
      requires HandlerDiscipline(script) && At(id, AtVerify)
      modifies this
      ensures At(id, match failed case None => AtFirstCheck case Some(code) => AtFail(code))
    {
      Pause(id, AtVerify);
      failed := if script.crash.Some? then script.crash
      else if SourcesHold(world, world.ops[id].row, script.external) then None else Some(SourceChanged);
      Take(Verify(id, script.external, script.crash));
    }

    /** `run_claimed`. However its transactions fall and whatever the others do between
        them, it ends; a result it prepared was activated or discarded once, unless the read
        after the execution raised; and it reports success exactly for an activated one. */
    method RunClaimed(id: OperationId, script: Script) returns (result: Option<Row>)
      requires HandlerDiscipline(script) && At(id, AtVerify)
      modifies this
      ensures Ended(id, result)
      ensures var run := world.ops[id].run.value;
              && (run.prepared.Some? ==> (UsedOnce(run) <==> !run.pc.RaisedUnchecked?))
              && (run.activated <==> result.Some? && result.value.status.Succeeded?)
    {
      result := RunTo(id, script);
      ReachableOpHolds(trace, id);
      if world.ops[id].run.value.prepared.Some? {
        PreparedIsUsedOnce(trace, id);
      }
    }

    method RunTo(id: OperationId, script: Script) returns (result: Option<Row>)
      requires HandlerDiscipline(script) && At(id, AtVerify)
      modifies this
      ensures Ended(id, result)
    {
      var failed := VerifySources(id, script);
      if failed.Some? {
        result := FailOperation(id, failed.value, script.failCommits);
        return;
      }
      var asked := Cancelled(id, false, script.firstReadFails);
      if asked.None? {
        result := FailOperation(id, ExecutionFailed, script.failCommits);
        return;
      }
      if asked.value {
        result := CompleteOperation(id, script.completeCommits, true);
        if result.None? {
          result := FailOperation(id, ExecutionFailed, script.failCommits);
        }
        return;
      }
      var outcome := ExecuteHandler(id, script);
      match outcome {
        case Breaks(code) =>
          if code == CancelledBeforeActivation {
            result := CompleteOperation(id, script.completeCommits, false);
          } else {
            result := FailOperation(id, code, script.failCommits);
          }
        case Delivers(_) =>
          asked := Cancelled(id, true, script.secondReadFails);
          if asked.None? {
            result := None;
          } else if asked.value {
            DiscardResult(id, AtComplete(false));
            result := CompleteOperation(id, script.completeCommits, false);
          } else {
            result := ActivateOrDiscard(id, script);
          }
      }
    }
  }
}
