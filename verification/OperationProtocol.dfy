/** Every interleaving of workers, clients and recovery, as atomic steps
    (application/operation_runner.py, runtime/execution.py, services/operations/handlers.py).

    A step is one transaction, or one event between two. What a handler, the network or the
    scheduler decides is a parameter of the step. */
module OperationProtocol {
  import opened Wrappers
  import opened OperationRows

  // ----- one Operation and its execution -----

  /** What an execution prepared; `Nothing` is the empty result of one that lost its lease. */
  datatype Prepared = Nothing | Prepared(content: string, outputs: seq<string>)

  /** Where `run_claimed` stands. Completing is `guarded` inside the first `try`, whose
      `except` turns a failing completion into a failed Operation. */
  datatype Pc =
    | AtVerify
    | AtFirstCheck
    | AtExecute
    | AtSecondCheck
    | AtActivate
    | AtDiscard(next: Pc)
    | AtComplete(guarded: bool)
    | AtFail(code: FailureCode)
    | Returned
    | Raised
    | RaisedUnchecked
    | Died

  /** One execution: who runs it, where it stands, whether it saw itself no longer wanted,
      what it prepared, and what became of that. */
  datatype Run = Run(
    runner: RunnerId, pc: Pc, sawLost: bool, prepared: Option<Prepared>, discards: nat, activated: bool)

  datatype Op = Op(row: Row, run: Option<Run>)

  predicate Owned(o: Op) {
    o.run.Some? && OwnedBy(o.row, o.run.value.runner)
  }

  predicate Stands(o: Op, pc: Pc) {
    o.run.Some? && o.run.value.pc == pc
  }

  function Move(o: Op, pc: Pc): Op
    requires o.run.Some?
  {
    o.(run := Some(o.run.value.(pc := pc)))
  }

  function CancelOp(o: Op): Op { o.(row := CancelRequestedRow(o.row)) }

  function InterruptOp(o: Op): Op { o.(row := InterruptedRow(o.row)) }

  function ClaimOp(o: Op, runner: RunnerId): Op {
    Op(ClaimedRow(o.row, runner), Some(Run(runner, AtVerify, false, None, 0, false)))
  }

  /** Verifying the sources in a read transaction; any exception fails the Operation. */
  function VerifyOp(o: Op, holds: bool, crash: Option<FailureCode>): Op {
    if !Stands(o, AtVerify) then o
    else
      match crash
      case Some(code) => if code == CancelledBeforeActivation then o else Move(o, AtFail(code))
      case None => Move(o, if holds then AtFirstCheck else AtFail(SourceChanged))
  }

  function FirstCheckOp(o: Op, readFails: bool): Op {
    if !Stands(o, AtFirstCheck) then o
    else if readFails then Move(o, AtFail(ExecutionFailed))
    else Move(o, if o.row.cancelRequested then AtComplete(true) else AtExecute)
  }

  /** The handler asks whether the Operation is still its own and still wanted. */
  function PollOp(o: Op): Op {
    if !Stands(o, AtExecute) then o
    else if Owned(o) && !o.row.cancelRequested then o
    else o.(run := Some(o.run.value.(sawLost := true)))
  }

  function ReturnOp(o: Op, prepared: Prepared): Op {
    if !Stands(o, AtExecute) then o
    else o.(run := Some(o.run.value.(pc := AtSecondCheck, prepared := Some(prepared))))
  }

  /** A handler stops as cancelled only after a poll told it to. */
  function RaiseOp(o: Op, code: FailureCode): Op {
    if !Stands(o, AtExecute) || (code == CancelledBeforeActivation && !o.run.value.sawLost) then o
    else Move(o, if code == CancelledBeforeActivation then AtComplete(false) else AtFail(code))
  }

  /** The check after execution is the one read outside every `except`: failing, it raises
      out of `run_claimed` with the prepared result neither activated nor discarded. */
  function SecondCheckOp(o: Op, readFails: bool): Op {
    if !Stands(o, AtSecondCheck) then o
    else if readFails then Move(o, RaisedUnchecked)
    else Move(o, if o.row.cancelRequested then AtDiscard(AtComplete(false)) else AtActivate)
  }

  /** What the activating transaction finds: sources, handler, and whether it commits. */
  datatype Verdict = Verdict(sourcesHold: bool, accepts: bool, refusal: FailureCode, commits: bool)

  /** The one transaction that may write the document and succeed the Operation: sources
      verified again, cancellation checked again, handler, outputs, completion - or none. */
  predicate Activates(o: Op, verdict: Verdict) {
    && Stands(o, AtActivate) && verdict.sourcesHold && !o.row.cancelRequested
    && verdict.accepts && o.run.value.prepared.Some? && o.run.value.prepared.value.Prepared?
    && Owned(o) && verdict.commits
  }

  predicate CancelsAtActivation(o: Op, verdict: Verdict) {
    Stands(o, AtActivate) && verdict.sourcesHold && o.row.cancelRequested && Owned(o) && verdict.commits
  }

  function ActivateOp(o: Op, verdict: Verdict): Op {
    if !Stands(o, AtActivate) then o
    else if Activates(o, verdict) then
      Op(CompletedRow(o.row).(outputs := o.run.value.prepared.value.outputs),
         Some(o.run.value.(pc := Returned, activated := true)))
    else if CancelsAtActivation(o, verdict) then
      Op(CompletedRow(o.row), Some(o.run.value.(pc := AtDiscard(Returned))))
    else Move(o, AtDiscard(AtFail(if verdict.sourcesHold then verdict.refusal else SourceChanged)))
  }

  function DiscardOp(o: Op): Op {
    if o.run.None? || !o.run.value.pc.AtDiscard? then o
    else o.(run := Some(o.run.value.(pc := o.run.value.pc.next, discards := o.run.value.discards + 1)))
  }

  function CompleteOp(o: Op, commits: bool): Op {
    if o.run.None? || !o.run.value.pc.AtComplete? then o
    else if Owned(o) && commits then Move(o.(row := CompletedRow(o.row)), Returned)
    else Move(o, if o.run.value.pc.guarded then AtFail(ExecutionFailed) else Raised)
  }

  function FailOp(o: Op, commits: bool): Op {
    if o.run.None? || !o.run.value.pc.AtFail? then o
    else if Owned(o) && commits then Move(o.(row := FailedRow(o.row, o.run.value.pc.code)), Returned)
    else Move(o, Raised)
  }

  predicate Over(pc: Pc) {
    pc.Returned? || pc.Raised? || pc.RaisedUnchecked? || pc.Died?
  }

  /** The worker process ends with this execution unfinished. */
  function DieOp(o: Op): Op {
    if o.run.None? || Over(o.run.value.pc) then o else Move(o, Died)
  }

  // ----- the system -----

  datatype WorkerPhase = Recovering | Serving | Stopped

  datatype Author = User | Execution(id: OperationId)

  /** A document write: what its author had read, and what it left. `templates` in a world are
      the default templates of the Applications' owners. */
  datatype Write = Write(application: ApplicationId, author: Author, read: Option<Body>, result: Body)

  datatype World = World(
    ops: map<OperationId, Op>,
    documents: map<ApplicationId, Body>,
    slot: Option<RunnerId>,
    workers: map<RunnerId, WorkerPhase>,
    log: seq<Write>,
    deleted: set<ApplicationId>,
    templates: map<ApplicationId, string>)

  const START := World(map[], map[], None, map[], [], {}, map[])

  datatype Step =
    | Enqueue(id: OperationId, application: ApplicationId, kind: Kind, expected: Option<DocumentHash>)
    | RequestCancel(id: OperationId)
    | UserWrite(application: ApplicationId, read: Body, result: Body)
    | DeleteApplication(application: ApplicationId)
    | ChooseTemplate(application: ApplicationId, template: Option<string>)
    | StartWorker(runner: RunnerId)
    | Recover(runner: RunnerId)
    | LoseSlot
    | StopWorker(runner: RunnerId)
    | Kill(runner: RunnerId)
    | Claim(runner: RunnerId, id: OperationId)
    | Verify(id: OperationId, external: bool, crash: Option<FailureCode>)
    | FirstCheck(id: OperationId, readFails: bool)
    | Poll(id: OperationId)
    | ExecuteReturns(id: OperationId, prepared: Prepared)
    | ExecuteRaises(id: OperationId, code: FailureCode)
    | SecondCheck(id: OperationId, readFails: bool)
    | Activate(id: OperationId, external: bool, accepts: bool, refusal: FailureCode, commits: bool)
    | Discard(id: OperationId)
    | Complete(id: OperationId, commits: bool)
    | Fail(id: OperationId, commits: bool)

  function HashNow(w: World, application: ApplicationId): Option<DocumentHash> {
    if application in w.documents then Some(HashOf(w.documents[application])) else None
  }

  /** Retrying this row as the world is now. */
  function RetryIn(w: World, row: Row): Result<Row, RetryRefusal> {
    Retry(row, row.application in w.deleted, HashNow(w, row.application))
  }

  function RowsOf(w: World): map<OperationId, Row> {
    map id | id in w.ops :: w.ops[id].row
  }

  /** The sources an Operation froze still hold: the document's hash for those that act on
      it, and for the others what lies outside this model. */
  predicate SourcesHold(w: World, row: Row, external: bool) {
    if ActsOnDocument(row.kind) then
      row.expected.Some? && row.application in w.documents && HashOf(w.documents[row.application]) == row.expected.value
    else external
  }

  /** A first draft is refused once the document has content. */
  predicate HandlerAccepts(w: World, row: Row, accepts: bool) {
    accepts && (row.kind.CreateDraft? ==>
      row.application in w.documents && w.documents[row.application].content.None?)
  }

  function VerdictOf(
      w: World, row: Row, external: bool, accepts: bool, refusal: FailureCode, commits: bool): Verdict
  {
    Verdict(SourcesHold(w, row, external), HandlerAccepts(w, row, accepts), refusal, commits)
  }

  /** What an activated Operation writes: generated content, nothing new for a render, a
      first document for an analysis - what it read is what it froze. */
  function WriteOf(w: World, id: OperationId, row: Row, content: string): Option<Write> {
    match row.kind
    case AnalyzeJob =>
      if row.application in w.documents then None
      else Some(Write(row.application, Execution(id), None, Body(content, None, DefaultTemplate(w, row.application))))
    case AskGapQuestions => None
    case DraftGapFact => None
    case RenderDocument =>
      if row.expected.None? then None
      else Some(Write(row.application, Execution(id), Some(row.expected.value.body), row.expected.value.body))
    case _ =>
      if row.expected.None? || row.application !in w.documents then None
      else Some(Write(row.application, Execution(id), Some(row.expected.value.body),
                      w.documents[row.application].(content := Some(content))))
  }

  /** The template its owner's settings give an Application's first document. */
  function DefaultTemplate(w: World, application: ApplicationId): Option<string> {
    if application in w.templates then Some(w.templates[application]) else None
  }

  function Record(w: World, write: Option<Write>): World {
    match write
    case None => w
    case Some(entry) =>
      w.(documents := w.documents[entry.application := entry.result], log := w.log + [entry])
  }

  function WithOp(w: World, id: OperationId, o: Op): World {
    w.(ops := w.ops[id := o])
  }

  predicate RunBy(o: Op, runner: RunnerId) {
    o.run.Some? && o.run.value.runner == runner
  }

  /** Leaving the thread pool waits for every execution the worker began. */
  predicate Idle(w: World, runner: RunnerId) {
    forall id :: id in w.ops && RunBy(w.ops[id], runner) ==> Over(w.ops[id].run.value.pc)
  }

  function AllInterrupted(w: World): World {
    w.(ops := map id | id in w.ops :: InterruptOp(w.ops[id]))
  }

  function AllKilled(w: World, runner: RunnerId): World {
    w.(ops := map id | id in w.ops :: if RunBy(w.ops[id], runner) then DieOp(w.ops[id]) else w.ops[id])
  }

  function SlotWithout(w: World, runner: RunnerId): Option<RunnerId> {
    if w.slot == Some(runner) then None else w.slot
  }

  /** One step; a step that is not enabled changes nothing. */
  function Apply(w: World, step: Step): World {
    match step
    case Enqueue(id, application, kind, expected) =>
      if id in w.ops || application in w.deleted then w
      else WithOp(w, id, Op(NewRow(application, kind, expected), None))
    case RequestCancel(id) =>
      if id !in w.ops then w else WithOp(w, id, CancelOp(w.ops[id]))
    case UserWrite(application, read, result) =>
      if application in w.documents && HashOf(w.documents[application]) == HashOf(read)
      then Record(w, Some(Write(application, User, Some(read), result))) else w
    case DeleteApplication(application) => w.(deleted := w.deleted + {application})
    case ChooseTemplate(application, template) =>
      w.(templates := if template.Some? then w.templates[application := template.value]
                      else w.templates - {application})
    case StartWorker(runner) =>
      if w.slot.Some? || runner in w.workers then w
      else w.(slot := Some(runner), workers := w.workers[runner := Recovering])
    case Recover(runner) =>
      if runner !in w.workers || !w.workers[runner].Recovering? then w
      else AllInterrupted(w).(workers := w.workers[runner := Serving])
    case LoseSlot => w.(slot := None)
    case StopWorker(runner) =>
      if runner !in w.workers || !Idle(w, runner) then w
      else w.(slot := SlotWithout(w, runner), workers := w.workers[runner := Stopped])
    case Kill(runner) =>
      if runner !in w.workers then w
      else AllKilled(w, runner).(slot := SlotWithout(w, runner), workers := w.workers[runner := Stopped])
    case Claim(runner, id) =>
      if runner in w.workers && w.workers[runner].Serving? && id in w.ops && w.ops[id].row.status.Queued?
         && ClaimGuardsAllow(RowsOf(w), id)
      then WithOp(w, id, ClaimOp(w.ops[id], runner)) else w
    case Verify(id, external, crash) =>
      if id !in w.ops then w else WithOp(w, id, VerifyOp(w.ops[id], SourcesHold(w, w.ops[id].row, external), crash))
    case FirstCheck(id, readFails) => if id !in w.ops then w else WithOp(w, id, FirstCheckOp(w.ops[id], readFails))
    case Poll(id) => if id !in w.ops then w else WithOp(w, id, PollOp(w.ops[id]))
    case ExecuteReturns(id, prepared) => if id !in w.ops then w else WithOp(w, id, ReturnOp(w.ops[id], prepared))
    case ExecuteRaises(id, code) => if id !in w.ops then w else WithOp(w, id, RaiseOp(w.ops[id], code))
    case SecondCheck(id, readFails) => if id !in w.ops then w else WithOp(w, id, SecondCheckOp(w.ops[id], readFails))
    case Activate(id, external, accepts, refusal, commits) =>
      if id !in w.ops then w
      else
        var o := w.ops[id];
        var verdict := VerdictOf(w, o.row, external, accepts, refusal, commits);
        var after := WithOp(w, id, ActivateOp(o, verdict));
        if Activates(o, verdict) then Record(after, WriteOf(w, id, o.row, o.run.value.prepared.value.content))
        else after
    case Discard(id) => if id !in w.ops then w else WithOp(w, id, DiscardOp(w.ops[id]))
    case Complete(id, commits) => if id !in w.ops then w else WithOp(w, id, CompleteOp(w.ops[id], commits))
    case Fail(id, commits) => if id !in w.ops then w else WithOp(w, id, FailOp(w.ops[id], commits))
  }

  /** A run of the whole system. */
  function Execute(w: World, steps: seq<Step>): World {
    if steps == [] then w else Apply(Execute(w, steps[..|steps| - 1]), steps[|steps| - 1])
  }

  // ----- what every step keeps, one Operation at a time -----

  /** The execution has nothing left to win: asked to stop, or no longer running. */
  predicate Lost(o: Op) {
    o.row.cancelRequested || !o.row.status.Running?
  }

  predicate Fresh(run: Run) {
    run.discards == 0 && !run.activated
  }

  predicate Settled(run: Run) {
    && !(run.activated && run.discards != 0)
    && (run.prepared.Some? ==> run.activated || run.discards == 1)
    && (run.prepared.None? ==> !run.activated && run.discards == 0)
    && run.discards <= 1
  }

  /** What became of a prepared result, by where the execution stands. */
  predicate LedgerHolds(run: Run) {
    match run.pc
    case AtVerify => run.prepared.None? && Fresh(run)
    case AtFirstCheck => run.prepared.None? && Fresh(run)
    case AtExecute => run.prepared.None? && Fresh(run)
    case AtSecondCheck => run.prepared.Some? && Fresh(run)
    case AtActivate => run.prepared.Some? && Fresh(run)
    case AtDiscard(next) =>
      run.prepared.Some? && Fresh(run) && (next == AtComplete(false) || next.AtFail? || next.Returned?)
    case AtComplete(guarded) => Settled(run) && !run.activated && (guarded ==> run.prepared.None?)
    case AtFail(_) => Settled(run) && !run.activated
    case Returned => Settled(run)
    case Raised => Settled(run) && !run.activated
    case RaisedUnchecked => run.prepared.Some? && Fresh(run)
    case Died => !run.activated && run.discards <= 1
  }

  /** An execution heads for completion only once the Operation is lost. */
  predicate HeadsForCompletion(run: Run) {
    run.sawLost || run.pc.AtComplete? || run.pc == AtDiscard(AtComplete(false))
  }

  /** What holds of one Operation and its execution in every reachable world. */
  predicate OpHolds(o: Op) {
    && ChecksHold(o.row)
    && (o.row.status.Queued? ==> !o.row.cancelRequested && o.run.None?)
    && (o.row.status.Running? ==> Owned(o) && !o.run.value.pc.Returned?)
    && (o.row.outputs != [] ==> o.row.status.Succeeded?)
    && (o.row.status.Succeeded? <==> o.run.Some? && o.run.value.activated)
    && (o.row.status.Succeeded? ==> !o.row.cancelRequested && o.run.value.pc.Returned?)
    && (o.row.status.Cancelled? ==> o.row.cancelRequested && o.row.failure in {None, Some(CancelledBeforeActivation)})
    && (o.run.Some? ==> LedgerHolds(o.run.value) && (HeadsForCompletion(o.run.value) ==> Lost(o)))
    && (Stands(o, AtDiscard(Returned)) ==> o.row.status.Cancelled?)
  }

  /** How one Operation may change in any one step. */
  predicate Evolves(a: Op, b: Op) {
    && b.row.application == a.row.application && b.row.kind == a.row.kind && b.row.expected == a.row.expected
    && (Terminal(a.row.status) ==> b.row == a.row)
    && (a.row.cancelRequested ==> b.row.cancelRequested)
    && (b.row.status.Running? ==> a.row.status.Running? || a.row.status.Queued?)
    && (b.row.status.Queued? ==> a.row.status.Queued?)
    && (a.run.Some? ==>
          && b.run.Some? && b.run.value.runner == a.run.value.runner
          && a.run.value.discards <= b.run.value.discards
          && (a.run.value.prepared.Some? ==> b.run.value.prepared == a.run.value.prepared)
          && (Over(a.run.value.pc) ==> b.run == a.run)
          && (a.run.value.activated ==> b.run == a.run))
  }

  predicate SameActivation(a: Op, b: Op) {
    (a.run.Some? && a.run.value.activated) <==> (b.run.Some? && b.run.value.activated)
  }

  /** A step other than a claim starts no Operation and no execution. */
  predicate Quiet(a: Op, b: Op) {
    OpHolds(b) && Evolves(a, b) && (b.row.status.Running? ==> a.row.status.Running?) && (b.run.Some? ==> a.run.Some?)
  }

  /** A quiet step that activates nothing. */
  predicate Steady(a: Op, b: Op) {
    Quiet(a, b) && SameActivation(a, b)
  }

  lemma {:induction false} StaysQuiet(o: Op)
    requires OpHolds(o)
    ensures Steady(o, o)
  {
  }

  /** What clients, recovery and the end of a process do to an Operation. */
  lemma {:induction false} OutsideStepsKeep(o: Op)
    requires OpHolds(o)
    ensures Steady(o, CancelOp(o)) && Steady(o, InterruptOp(o)) && Steady(o, DieOp(o))
  {
  }

  lemma {:induction false} ClaimKeeps(o: Op, runner: RunnerId)
    requires OpHolds(o) && o.row.status.Queued?
    ensures OpHolds(ClaimOp(o, runner)) && Evolves(o, ClaimOp(o, runner))
  {
  }

  lemma {:induction false} OpeningStepsKeep(o: Op, holds: bool, crash: Option<FailureCode>, readFails: bool)
    requires OpHolds(o)
    ensures Steady(o, VerifyOp(o, holds, crash)) && Steady(o, FirstCheckOp(o, readFails))
  {
  }

  lemma {:induction false} HandlerStepsKeep(o: Op, prepared: Prepared, code: FailureCode)
    requires OpHolds(o)
    ensures Steady(o, PollOp(o)) && Steady(o, ReturnOp(o, prepared)) && Steady(o, RaiseOp(o, code))
  {
  }

  lemma {:induction false} SecondCheckKeeps(o: Op, readFails: bool)
    requires OpHolds(o)
    ensures Steady(o, SecondCheckOp(o, readFails)) && Steady(o, DiscardOp(o))
  {
  }

  lemma {:induction false} ActivateKeeps(o: Op, verdict: Verdict)
    requires OpHolds(o)
    ensures Quiet(o, ActivateOp(o, verdict))
  {
  }

  /** Ending outside the activation never succeeds an Operation, committed or not. */
  lemma {:induction false} EndingStepsKeep(o: Op, commits: bool)
    requires OpHolds(o)
    ensures Steady(o, CompleteOp(o, commits)) && Steady(o, FailOp(o, commits))
    ensures CompleteOp(o, commits).row.status.Succeeded? ==> o.row.status.Succeeded?
  {
  }
}
