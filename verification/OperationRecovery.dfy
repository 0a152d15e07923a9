/** What startup recovery interrupts (application/operation_runner.py,
    runtime/execution.py). */
module OperationRecovery {
  import opened Wrappers
  import opened OperationRows
  import opened OperationProtocol
  import opened OperationSafety

  /** Without slot loss: only the slot's holder is not stopped, and only a serving worker
      has an execution that is not over. */
  ghost predicate SlotHolds(w: World) {
    && (forall runner :: runner in w.workers && !w.workers[runner].Stopped? ==> w.slot == Some(runner))
    && (forall id :: id in w.ops && w.ops[id].run.Some? ==> RunnerFits(w, w.ops[id].run.value))
  }

  predicate RunnerFits(w: World, run: Run) {
    && run.runner in w.workers && !w.workers[run.runner].Recovering?
    && (!Over(run.pc) ==> w.workers[run.runner].Serving?)
  }

  /** Every execution in `v` was one in `w`, and none of them came back to life. */
  ghost predicate NoNewRuns(w: World, v: World) {
    forall id :: id in v.ops && v.ops[id].run.Some? ==>
      && id in w.ops && w.ops[id].run.Some?
      && v.ops[id].run.value.runner == w.ops[id].run.value.runner
      && (Over(w.ops[id].run.value.pc) ==> Over(v.ops[id].run.value.pc))
  }

  lemma {:induction false} QuietStartsNothing(w: World, v: World)
    requires AllQuiet(w, v)
    ensures NoNewRuns(w, v)
  {
    forall id | id in v.ops && v.ops[id].run.Some?
      ensures id in w.ops && w.ops[id].run.Some? && v.ops[id].run.value.runner == w.ops[id].run.value.runner
              && (Over(w.ops[id].run.value.pc) ==> Over(v.ops[id].run.value.pc))
    {
      assert Quiet(w.ops[id], v.ops[id]);
    }
  }

  lemma {:induction false} ActivationStartsNothing(
      w: World, id: OperationId, external: bool, accepts: bool, refusal: FailureCode, commits: bool)
    requires EachHolds(w)
    ensures NoNewRuns(w, Apply(w, Activate(id, external, accepts, refusal, commits)))
  {
    if id in w.ops {
      ActivateKeeps(w.ops[id], VerdictOf(w, w.ops[id].row, external, accepts, refusal, commits));
      ActivationTouchesOne(w, id, external, accepts, refusal, commits);
    }
  }

  lemma {:induction false} ActivationTouchesOne(
      w: World, id: OperationId, external: bool, accepts: bool, refusal: FailureCode, commits: bool)
    requires id in w.ops
    ensures Apply(w, Activate(id, external, accepts, refusal, commits)).ops
         == w.ops[id := ActivateOp(w.ops[id], VerdictOf(w, w.ops[id].row, external, accepts, refusal, commits))]
  {
  }

  predicate WorkerStep(step: Step) {
    step.StartWorker? || step.Recover? || step.LoseSlot? || step.StopWorker? || step.Kill? || step.Claim?
  }

  lemma {:induction false} TouchedStartsNothing(w: World, step: Step)
    requires EachHolds(w) && Touched(w, step).Some?
    ensures NoNewRuns(w, Apply(w, step))
    ensures Apply(w, step).workers == w.workers && Apply(w, step).slot == w.slot
  {
    TouchedIsQuiet(w, step);
    QuietStartsNothing(w, Apply(w, step));
    TouchedApplies(w, step);
  }

  lemma {:induction false} BystanderLeavesWorkers(w: World, step: Step)
    requires Touched(w, step).None? && !WorkerStep(step)
    requires !step.Activate? && !step.Enqueue? && !step.UserWrite?
    ensures Apply(w, step).workers == w.workers && Apply(w, step).slot == w.slot
  {
  }

  lemma {:induction false} OtherStepsStartNothing(w: World, step: Step)
    requires EachHolds(w) && !WorkerStep(step)
    ensures NoNewRuns(w, Apply(w, step))
    ensures Apply(w, step).workers == w.workers && Apply(w, step).slot == w.slot
  {
    if Touched(w, step).Some? {
      TouchedStartsNothing(w, step);
    } else if !step.Activate? && !step.Enqueue? && !step.UserWrite? {
      BystanderStepChangesNoOperation(w, step);
      BystanderLeavesWorkers(w, step);
      SameOpsStartNothing(w, Apply(w, step));
    } else if step.Activate? {
      ActivationStartsNothing(w, step.id, step.external, step.accepts, step.refusal, step.commits);
      ActivationLeavesWorkers(w, step);
    } else {
      EntryStartsNothing(w, step);
    }
  }

  lemma {:induction false} SameOpsStartNothing(w: World, v: World)
    requires v.ops == w.ops
    ensures NoNewRuns(w, v)
  {
  }

  lemma {:induction false} ActivationLeavesWorkers(w: World, step: Step)
    requires step.Activate?
    ensures Apply(w, step).workers == w.workers && Apply(w, step).slot == w.slot
  {
  }

  lemma {:induction false} EntryStartsNothing(w: World, step: Step)
    requires step.Enqueue? || step.UserWrite?
    ensures NoNewRuns(w, Apply(w, step))
    ensures Apply(w, step).workers == w.workers && Apply(w, step).slot == w.slot
  {
  }

  lemma {:induction false} SlotStep(w: World, step: Step)
    requires Inv(w) && SlotHolds(w) && !step.LoseSlot?
    ensures SlotHolds(Apply(w, step))
  {
    var v := Apply(w, step);
    if !WorkerStep(step) {
      OtherStepsStartNothing(w, step);
    } else {
      WorkerStepKeepsSlot(w, step);
    }
  }

  lemma {:induction false} WorkerStepKeepsSlot(w: World, step: Step)
    requires EachHolds(w) && SlotHolds(w) && WorkerStep(step) && !step.LoseSlot?
    ensures SlotHolds(Apply(w, step))
  {
    if step.Recover? || step.Kill? {
      SweepKeepsSlot(w, step);
    }
  }

  lemma {:induction false} SweepKeepsSlot(w: World, step: Step)
    requires EachHolds(w) && SlotHolds(w) && (step.Recover? || step.Kill?)
    ensures SlotHolds(Apply(w, step))
  {
    if Apply(w, step) != w {
      SweepStartsNothing(w, step);
      if step.Recover? {
        RecoveryKeepsSlot(w, step.runner);
      } else {
        KillKeepsSlot(w, step.runner);
      }
    }
  }

  lemma {:induction false} RecoveryKeepsSlot(w: World, runner: RunnerId)
    requires SlotHolds(w) && NoNewRuns(w, Apply(w, Recover(runner)))
    ensures SlotHolds(Apply(w, Recover(runner)))
  {
  }

  lemma {:induction false} KillKeepsSlot(w: World, runner: RunnerId)
    requires SlotHolds(w) && NoNewRuns(w, Apply(w, Kill(runner)))
    ensures SlotHolds(Apply(w, Kill(runner)))
  {
  }

  lemma {:induction false} SweepStartsNothing(w: World, step: Step)
    requires EachHolds(w) && (step.Recover? || step.Kill?) && Apply(w, step) != w
    ensures NoNewRuns(w, Apply(w, step))
  {
    SweepIsQuiet(w, Apply(w, step), step.runner);
    QuietStartsNothing(w, Apply(w, step));
  }

  lemma {:induction false} ReachableSlot(steps: seq<Step>)
    requires forall step :: step in steps ==> !step.LoseSlot?
    ensures SlotHolds(Execute(START, steps))
  {
    if steps != [] {
      ReachableSlot(steps[..|steps| - 1]);
      ReachableHolds(steps[..|steps| - 1]);
      SlotStep(Execute(START, steps[..|steps| - 1]), steps[|steps| - 1]);
    }
  }

  /** A worker that stopped or died gives the slot up: a new one can take it and recover. */
  lemma {:induction false} SlotPassesOn(w: World, runner: RunnerId, next: RunnerId)
    requires runner in w.workers && w.slot == Some(runner) && next !in w.workers
    ensures var v := Apply(Apply(w, Kill(runner)), StartWorker(next));
            v.slot == Some(next) && next in v.workers && v.workers[next].Recovering?
    ensures Idle(w, runner) ==>
      var v := Apply(Apply(w, StopWorker(runner)), StartWorker(next));
      v.slot == Some(next) && next in v.workers && v.workers[next].Recovering?
  {
  }

  /** While the slot is never lost, recovery interrupts only Operations whose worker stopped
      and whose execution is over; afterwards nothing runs. */
  lemma {:induction false} RecoveryTouchesOnlyTheDead(steps: seq<Step>, runner: RunnerId)
    requires forall step :: step in steps ==> !step.LoseSlot?
    requires var w := Execute(START, steps); runner in w.workers && w.workers[runner].Recovering?
    ensures var w := Execute(START, steps);
            && (forall id :: id in w.ops && w.ops[id].row.status.Running? ==>
                  && w.ops[id].row.lease.Some? && w.ops[id].row.lease.value in w.workers
                  && w.workers[w.ops[id].row.lease.value].Stopped?
                  && w.ops[id].run.Some? && Over(w.ops[id].run.value.pc))
            && (forall id :: id in Apply(w, Recover(runner)).ops ==>
                  !Apply(w, Recover(runner)).ops[id].row.status.Running?)
            && (forall id :: id in w.ops && w.ops[id].row.status.Running? ==>
                  Apply(w, Recover(runner)).ops[id].row.status.Interrupted?)
  {
    ReachableSlot(steps);
    ReachableHolds(steps);
    var w := Execute(START, steps);
    forall id | id in w.ops && w.ops[id].row.status.Running?
      ensures w.ops[id].row.lease.Some? && w.ops[id].row.lease.value in w.workers
              && w.workers[w.ops[id].row.lease.value].Stopped?
              && w.ops[id].run.Some? && Over(w.ops[id].run.value.pc)
    {
      assert OpHolds(w.ops[id]) && RunnerFits(w, w.ops[id].run.value);
    }
  }
}
