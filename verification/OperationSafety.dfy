/** Safety of the Operation protocol over every run: what all reachable worlds share, and
    what no later step can take back. */
module OperationSafety {
  import opened Wrappers
  import opened OperationRows
  import opened OperationProtocol

  // ----- the invariant -----

  ghost predicate EachHolds(w: World) {
    forall id :: id in w.ops ==> OpHolds(w.ops[id])
  }

  /** The last write to one document. */
  function LastResult(log: seq<Write>, application: ApplicationId): Option<Body> {
    if log == [] then None
    else if log[|log| - 1].application == application then Some(log[|log| - 1].result)
    else LastResult(log[..|log| - 1], application)
  }

  /** No lost update: each write's author had read what the previous write to that document left. */
  ghost predicate NothingLost(log: seq<Write>) {
    forall k :: 0 <= k < |log| ==> log[k].read == LastResult(log[..k], log[k].application)
  }

  function Stored(w: World, application: ApplicationId): Option<Body> {
    if application in w.documents then Some(w.documents[application]) else None
  }

  ghost predicate DocumentsHold(w: World) {
    && NothingLost(w.log)
    && forall application: ApplicationId :: LastResult(w.log, application) == Stored(w, application)
  }

  function WritesBy(log: seq<Write>, id: OperationId): nat {
    if log == [] then 0
    else WritesBy(log[..|log| - 1], id) + (if log[|log| - 1].author == Execution(id) then 1 else 0)
  }

  predicate Activated(w: World, id: OperationId) {
    id in w.ops && w.ops[id].run.Some? && w.ops[id].run.value.activated
  }

  /** An Operation writes its document in its activation, and there once. */
  ghost predicate WritesHold(w: World) {
    forall id: OperationId ::
      && WritesBy(w.log, id) <= (if Activated(w, id) then 1 else 0)
      && (Activated(w, id) && ActsOnDocument(w.ops[id].row.kind) ==> WritesBy(w.log, id) == 1)
  }

  predicate FrozenBy(w: World, write: Write) {
    match write.author
    case User => true
    case Execution(id) =>
      && id in w.ops && w.ops[id].row.application == write.application
      && (ActsOnDocument(w.ops[id].row.kind) ==>
            write.read.Some? && w.ops[id].row.expected == Some(HashOf(write.read.value)))
  }

  /** What an execution's write had read is the hash its Operation froze when it was asked for. */
  ghost predicate AuthorsHold(w: World) {
    forall k :: 0 <= k < |w.log| ==> FrozenBy(w, w.log[k])
  }

  ghost predicate Inv(w: World) {
    EachHolds(w) && Exclusive(RowsOf(w)) && DocumentsHold(w) && WritesHold(w) && AuthorsHold(w)
  }

  /** What a later world keeps of an earlier one. */
  ghost predicate Follows(w: World, v: World) {
    && (forall id :: id in w.ops ==> id in v.ops && Evolves(w.ops[id], v.ops[id]))
    && w.log <= v.log
  }

  // ----- Operations changed, no document written -----

  lemma {:induction false} ExclusiveStays(w: World, v: World)
    requires Exclusive(RowsOf(w)) && v.ops.Keys == w.ops.Keys
    requires forall id :: id in w.ops ==>
      && v.ops[id].row.application == w.ops[id].row.application
      && v.ops[id].row.kind == w.ops[id].row.kind
      && (v.ops[id].row.status.Running? ==> w.ops[id].row.status.Running?)
    ensures Exclusive(RowsOf(v))
  {
    forall a, b | a in RowsOf(v) && b in RowsOf(v) && a != b
                  && RowsOf(v)[a].status.Running? && RowsOf(v)[b].status.Running?
      ensures RowsOf(v)[a].application != RowsOf(v)[b].application
              && !(RowsOf(v)[a].kind.RenderDocument? && RowsOf(v)[b].kind.RenderDocument?)
    {
      assert RowsOf(w)[a].status.Running? && RowsOf(w)[b].status.Running?;
    }
  }

  lemma {:induction false} WritesStay(w: World, v: World)
    requires WritesHold(w) && AuthorsHold(w) && v.log == w.log && w.ops.Keys <= v.ops.Keys
    requires forall id :: id in w.ops ==>
      && SameActivation(w.ops[id], v.ops[id]) && v.ops[id].row.kind == w.ops[id].row.kind
      && v.ops[id].row.application == w.ops[id].row.application && v.ops[id].row.expected == w.ops[id].row.expected
    requires forall id :: id in v.ops && id !in w.ops ==> !Activated(v, id)
    ensures WritesHold(v) && AuthorsHold(v)
  {
    assert forall id: OperationId :: Activated(v, id) <==> Activated(w, id);
    forall k | 0 <= k < |v.log|
      ensures FrozenBy(v, v.log[k])
    {
      assert FrozenBy(w, w.log[k]);
    }
  }

  lemma {:induction false} DocumentsStay(w: World, v: World)
    requires DocumentsHold(w) && v.log == w.log && v.documents == w.documents
    ensures DocumentsHold(v)
  {
    forall application: ApplicationId
      ensures LastResult(v.log, application) == Stored(v, application)
    {
      assert Stored(v, application) == Stored(w, application);
    }
  }

  ghost predicate AllQuiet(w: World, v: World) {
    && v.ops.Keys == w.ops.Keys && v.log == w.log && v.documents == w.documents
    && forall id :: id in w.ops ==> Steady(w.ops[id], v.ops[id])
  }

  lemma {:induction false} QuietKeeps(w: World, v: World)
    requires Inv(w) && AllQuiet(w, v)
    ensures Inv(v) && Follows(w, v)
  {
    assert EachHolds(v);
    ExclusiveStays(w, v);
    WritesStay(w, v);
    DocumentsStay(w, v);
  }

  lemma {:induction false} ChangeIsQuiet(w: World, id: OperationId, o: Op)
    requires EachHolds(w) && id in w.ops && Steady(w.ops[id], o)
    ensures AllQuiet(w, WithOp(w, id, o))
  {
    forall other | other in w.ops && other != id
      ensures Steady(w.ops[other], w.ops[other])
    {
      StaysQuiet(w.ops[other]);
    }
  }

  // ----- a document written -----

  lemma {:induction false} LogGrows(log: seq<Write>, entry: Write, application: ApplicationId, id: OperationId)
    ensures LastResult(log + [entry], application)
         == if entry.application == application then Some(entry.result) else LastResult(log, application)
    ensures WritesBy(log + [entry], id) == WritesBy(log, id) + (if entry.author == Execution(id) then 1 else 0)
  {
    assert (log + [entry])[..|log + [entry]| - 1] == log;
  }

  lemma {:induction false} NothingLostGrows(log: seq<Write>, entry: Write)
    requires NothingLost(log) && entry.read == LastResult(log, entry.application)
    ensures NothingLost(log + [entry])
  {
    var longer := log + [entry];
    forall k | 0 <= k < |longer|
      ensures longer[k].read == LastResult(longer[..k], longer[k].application)
    {
      assert longer[..k] == log[..k];
      assert log[..|log|] == log;
    }
  }

  lemma {:induction false} RecordedDocuments(w: World, v: World, entry: Write)
    requires DocumentsHold(w) && entry.read == Stored(w, entry.application)
    requires v.log == w.log + [entry] && v.documents == w.documents[entry.application := entry.result]
    ensures DocumentsHold(v)
  {
    NothingLostGrows(w.log, entry);
    forall application: ApplicationId
      ensures LastResult(v.log, application) == Stored(v, application)
    {
      LogGrows(w.log, entry, application, "");
      assert LastResult(w.log, application) == Stored(w, application);
    }
  }

  lemma {:induction false} RecordedAuthors(w: World, v: World, entry: Write)
    requires AuthorsHold(w) && v.log == w.log + [entry] && v.ops.Keys == w.ops.Keys && FrozenBy(v, entry)
    requires forall id :: id in w.ops ==>
      && v.ops[id].row.application == w.ops[id].row.application
      && v.ops[id].row.kind == w.ops[id].row.kind && v.ops[id].row.expected == w.ops[id].row.expected
    ensures AuthorsHold(v)
  {
    forall k | 0 <= k < |v.log|
      ensures FrozenBy(v, v.log[k])
    {
      if k < |w.log| {
        assert FrozenBy(w, w.log[k]);
      }
    }
  }

  lemma {:induction false} UserWriteKeeps(w: World, entry: Write)
    requires Inv(w) && entry.author.User? && entry.read == Stored(w, entry.application)
    ensures Inv(Record(w, Some(entry))) && Follows(w, Record(w, Some(entry)))
  {
    var v := Record(w, Some(entry));
    RecordedDocuments(w, v, entry);
    RecordedAuthors(w, v, entry);
    ExclusiveStays(w, v);
    forall id: OperationId
      ensures WritesBy(v.log, id) == WritesBy(w.log, id)
    {
      LogGrows(w.log, entry, "", id);
    }
    assert forall id: OperationId :: Activated(v, id) <==> Activated(w, id);
    forall id | id in w.ops
      ensures Evolves(w.ops[id], v.ops[id])
    {
      StaysQuiet(w.ops[id]);
    }
  }

  /** The activating step leaves everything else alone and marks its own execution. */
  lemma {:induction false} ActivatedOp(o: Op, verdict: Verdict)
    requires OpHolds(o) && Activates(o, verdict)
    ensures Quiet(o, ActivateOp(o, verdict)) && !o.run.value.activated
    ensures ActivateOp(o, verdict).run.Some? && ActivateOp(o, verdict).run.value.activated
  {
    ActivateKeeps(o, verdict);
  }

  lemma {:induction false} UnactivatedOp(o: Op, verdict: Verdict)
    requires OpHolds(o) && !Activates(o, verdict)
    ensures Steady(o, ActivateOp(o, verdict))
  {
    ActivateKeeps(o, verdict);
  }

  /** What an activation writes was read from the document as it stands, under the hash the
      Operation froze. */
  lemma {:induction false} ActivationReadsTheStored(
      w: World, id: OperationId, external: bool, accepts: bool, refusal: FailureCode, commits: bool)
    requires id in w.ops
    requires Activates(w.ops[id], VerdictOf(w, w.ops[id].row, external, accepts, refusal, commits))
    ensures var row := w.ops[id].row;
            var write := WriteOf(w, id, row, w.ops[id].run.value.prepared.value.content);
            && (ActsOnDocument(row.kind) ==> write.Some?)
            && (write.Some? ==>
                  && write.value.author == Execution(id) && write.value.application == row.application
                  && write.value.read == Stored(w, row.application)
                  && (ActsOnDocument(row.kind) ==>
                        write.value.read.Some? && row.expected == Some(HashOf(write.value.read.value))))
  {
  }

  lemma {:induction false} ActivationOps(
      w: World, id: OperationId, external: bool, accepts: bool, refusal: FailureCode, commits: bool)
    requires EachHolds(w) && Exclusive(RowsOf(w)) && id in w.ops
    requires Activates(w.ops[id], VerdictOf(w, w.ops[id].row, external, accepts, refusal, commits))
    ensures var v := Apply(w, Activate(id, external, accepts, refusal, commits));
            EachHolds(v) && Exclusive(RowsOf(v)) && Follows(w, v)
  {
    var v := Apply(w, Activate(id, external, accepts, refusal, commits));
    ActivatedOp(w.ops[id], VerdictOf(w, w.ops[id].row, external, accepts, refusal, commits));
    forall other | other in w.ops
      ensures Quiet(w.ops[other], v.ops[other])
    {
      StaysQuiet(w.ops[other]);
    }
    ExclusiveStays(w, v);
  }

  lemma {:induction false} ActivationWrites(
      w: World, id: OperationId, external: bool, accepts: bool, refusal: FailureCode, commits: bool)
    requires id in w.ops && OpHolds(w.ops[id])
    requires Activates(w.ops[id], VerdictOf(w, w.ops[id].row, external, accepts, refusal, commits))
    ensures var o := w.ops[id];
            var v := Apply(w, Activate(id, external, accepts, refusal, commits));
            var write := WriteOf(w, id, o.row, o.run.value.prepared.value.content);
            && v.ops == w.ops[id := ActivateOp(o, VerdictOf(w, o.row, external, accepts, refusal, commits))]
            && v.log == Logged(w.log, write)
            && (write.None? ==> v.documents == w.documents)
            && (write.Some? ==> v.documents == w.documents[write.value.application := write.value.result])
  {
  }

  lemma {:induction false} ActivationLog(
      w: World, id: OperationId, external: bool, accepts: bool, refusal: FailureCode, commits: bool)
    requires id in w.ops && OpHolds(w.ops[id]) && DocumentsHold(w) && WritesHold(w) && AuthorsHold(w)
    requires Activates(w.ops[id], VerdictOf(w, w.ops[id].row, external, accepts, refusal, commits))
    ensures var v := Apply(w, Activate(id, external, accepts, refusal, commits));
            DocumentsHold(v) && WritesHold(v) && AuthorsHold(v)
  {
    var o := w.ops[id];
    var write := WriteOf(w, id, o.row, o.run.value.prepared.value.content);
    var v := Apply(w, Activate(id, external, accepts, refusal, commits));
    ActivatedOp(o, VerdictOf(w, o.row, external, accepts, refusal, commits));
    ActivationWrites(w, id, external, accepts, refusal, commits);
    ActivationReadsTheStored(w, id, external, accepts, refusal, commits);
    WritesCounted(w.log, write, id);
    WrittenOnce(w, v, id, write.Some?);
    match write {
      case None =>
        AuthorsStay(w, v);
        DocumentsStay(w, v);
      case Some(entry) =>
        RecordedAuthors(w, v, entry);
        RecordedDocuments(w, v, entry);
    }
  }

  lemma {:induction false} ActivationKeeps(
      w: World, id: OperationId, external: bool, accepts: bool, refusal: FailureCode, commits: bool)
    requires Inv(w) && id in w.ops
    requires Activates(w.ops[id], VerdictOf(w, w.ops[id].row, external, accepts, refusal, commits))
    ensures var v := Apply(w, Activate(id, external, accepts, refusal, commits)); Inv(v) && Follows(w, v)
  {
    ActivationOps(w, id, external, accepts, refusal, commits);
    ActivationLog(w, id, external, accepts, refusal, commits);
  }

  function Logged(log: seq<Write>, write: Option<Write>): seq<Write> {
    match write
    case None => log
    case Some(entry) => log + [entry]
  }

  lemma {:induction false} WritesCounted(log: seq<Write>, write: Option<Write>, id: OperationId)
    requires write.Some? ==> write.value.author == Execution(id)
    ensures forall other: OperationId ::
      WritesBy(Logged(log, write), other) == WritesBy(log, other) + (if write.Some? && other == id then 1 else 0)
  {
    forall other: OperationId
      ensures WritesBy(Logged(log, write), other) ==
        WritesBy(log, other) + (if write.Some? && other == id then 1 else 0)
    {
      if write.Some? {
        LogGrows(log, write.value, "", other);
      }
    }
  }

  lemma {:induction false} WrittenOnce(w: World, v: World, id: OperationId, wrote: bool)
    requires WritesHold(w) && !Activated(w, id) && Activated(v, id)
    requires forall other: OperationId :: other != id ==>
      (Activated(v, other) <==> Activated(w, other)) && (Activated(w, other) ==> v.ops[other] == w.ops[other])
    requires forall other: OperationId ::
      WritesBy(v.log, other) == WritesBy(w.log, other) + (if wrote && other == id then 1 else 0)
    requires ActsOnDocument(v.ops[id].row.kind) ==> wrote
    ensures WritesHold(v)
  {
    forall other: OperationId
      ensures WritesBy(v.log, other) <= (if Activated(v, other) then 1 else 0)
      ensures Activated(v, other) && ActsOnDocument(v.ops[other].row.kind) ==> WritesBy(v.log, other) == 1
    {
      assert WritesBy(w.log, other) <= (if Activated(w, other) then 1 else 0);
    }
  }

  lemma {:induction false} AuthorsStay(w: World, v: World)
    requires AuthorsHold(w) && v.log == w.log && v.ops.Keys == w.ops.Keys
    requires forall id :: id in w.ops ==>
      && v.ops[id].row.application == w.ops[id].row.application
      && v.ops[id].row.kind == w.ops[id].row.kind && v.ops[id].row.expected == w.ops[id].row.expected
    ensures AuthorsHold(v)
  {
    forall k | 0 <= k < |v.log|
      ensures FrozenBy(v, v.log[k])
    {
      assert FrozenBy(w, w.log[k]);
    }
  }

  // ----- every step -----

  lemma {:induction false} EnqueueKeeps(w: World, id: OperationId, row: Row)
    requires Inv(w) && id !in w.ops && row == NewRow(row.application, row.kind, row.expected)
    ensures Inv(WithOp(w, id, Op(row, None))) && Follows(w, WithOp(w, id, Op(row, None)))
  {
    var v := WithOp(w, id, Op(row, None));
    forall a, b | a in RowsOf(v) && b in RowsOf(v) && a != b
                  && RowsOf(v)[a].status.Running? && RowsOf(v)[b].status.Running?
      ensures RowsOf(v)[a].application != RowsOf(v)[b].application
              && !(RowsOf(v)[a].kind.RenderDocument? && RowsOf(v)[b].kind.RenderDocument?)
    {
      assert RowsOf(w)[a].status.Running? && RowsOf(w)[b].status.Running?;
    }
    WritesStay(w, v);
    DocumentsStay(w, v);
    forall other | other in w.ops
      ensures OpHolds(v.ops[other]) && Evolves(w.ops[other], v.ops[other])
    {
      StaysQuiet(w.ops[other]);
    }
  }

  lemma {:induction false} ClaimKeepsInv(w: World, id: OperationId, runner: RunnerId)
    requires Inv(w) && id in w.ops && w.ops[id].row.status.Queued? && ClaimGuardsAllow(RowsOf(w), id)
    ensures var v := WithOp(w, id, ClaimOp(w.ops[id], runner)); Inv(v) && Follows(w, v)
  {
    var v := WithOp(w, id, ClaimOp(w.ops[id], runner));
    ClaimKeeps(w.ops[id], runner);
    forall a, b | a in RowsOf(v) && b in RowsOf(v) && a != b
                  && RowsOf(v)[a].status.Running? && RowsOf(v)[b].status.Running?
      ensures RowsOf(v)[a].application != RowsOf(v)[b].application
              && !(RowsOf(v)[a].kind.RenderDocument? && RowsOf(v)[b].kind.RenderDocument?)
    {
      assert a in RowsOf(w) && b in RowsOf(w);
    }
    WritesStay(w, v);
    DocumentsStay(w, v);
    forall other | other in w.ops
      ensures OpHolds(v.ops[other]) && Evolves(w.ops[other], v.ops[other])
    {
      if other != id {
        StaysQuiet(w.ops[other]);
      }
    }
  }

  lemma {:induction false} UnchangedOpsKeep(w: World, v: World)
    requires Inv(w) && v.ops == w.ops && v.log == w.log && v.documents == w.documents
    ensures Inv(v) && Follows(w, v)
  {
    forall id | id in w.ops
      ensures Steady(w.ops[id], v.ops[id])
    {
      StaysQuiet(w.ops[id]);
    }
    QuietKeeps(w, v);
  }

  lemma {:induction false} SweepIsQuiet(w: World, v: World, runner: RunnerId)
    requires EachHolds(w) && v.log == w.log && v.documents == w.documents
    requires v.ops == AllInterrupted(w).ops || v.ops == AllKilled(w, runner).ops
    ensures AllQuiet(w, v)
  {
    forall id | id in w.ops
      ensures Steady(w.ops[id], v.ops[id])
    {
      StaysQuiet(w.ops[id]);
      OutsideStepsKeep(w.ops[id]);
    }
  }

  /** The step's effect on one Operation, when it touches one and writes no document. */
  function Touched(w: World, step: Step): Option<(OperationId, Op)> {
    match step
    case RequestCancel(id) => if id in w.ops then Some((id, CancelOp(w.ops[id]))) else None
    case Verify(id, external, crash) =>
      if id in w.ops then Some((id, VerifyOp(w.ops[id], SourcesHold(w, w.ops[id].row, external), crash))) else None
    case FirstCheck(id, readFails) => if id in w.ops then Some((id, FirstCheckOp(w.ops[id], readFails))) else None
    case Poll(id) => if id in w.ops then Some((id, PollOp(w.ops[id]))) else None
    case ExecuteReturns(id, prepared) => if id in w.ops then Some((id, ReturnOp(w.ops[id], prepared))) else None
    case ExecuteRaises(id, code) => if id in w.ops then Some((id, RaiseOp(w.ops[id], code))) else None
    case SecondCheck(id, readFails) => if id in w.ops then Some((id, SecondCheckOp(w.ops[id], readFails))) else None
    case Discard(id) => if id in w.ops then Some((id, DiscardOp(w.ops[id]))) else None
    case Complete(id, commits) => if id in w.ops then Some((id, CompleteOp(w.ops[id], commits))) else None
    case Fail(id, commits) => if id in w.ops then Some((id, FailOp(w.ops[id], commits))) else None
    case _ => None
  }

  lemma {:induction false} TouchedChange(w: World, step: Step)
    requires EachHolds(w) && Touched(w, step).Some?
    ensures var (id, o) := Touched(w, step).value;
            id in w.ops && Steady(w.ops[id], o)
  {
    match step {
      case RequestCancel(id) => OutsideStepsKeep(w.ops[id]);
      case Verify(id, external, crash) =>
        OpeningStepsKeep(w.ops[id], SourcesHold(w, w.ops[id].row, external), crash, false);
      case FirstCheck(id, readFails) => OpeningStepsKeep(w.ops[id], true, None, readFails);
      case Poll(id) => HandlerStepsKeep(w.ops[id], Nothing, ExecutionFailed);
      case ExecuteReturns(id, prepared) => HandlerStepsKeep(w.ops[id], prepared, ExecutionFailed);
      case ExecuteRaises(id, code) => HandlerStepsKeep(w.ops[id], Nothing, code);
      case SecondCheck(id, readFails) => SecondCheckKeeps(w.ops[id], readFails);
      case Discard(id) => SecondCheckKeeps(w.ops[id], false);
      case Complete(id, commits) => EndingStepsKeep(w.ops[id], commits);
      case Fail(id, commits) => EndingStepsKeep(w.ops[id], commits);
      case _ =>
    }
  }

  lemma {:induction false} TouchedIsQuiet(w: World, step: Step)
    requires EachHolds(w) && Touched(w, step).Some?
    ensures AllQuiet(w, Apply(w, step))
  {
    TouchedChange(w, step);
    var (id, o) := Touched(w, step).value;
    ChangeIsQuiet(w, id, o);
    TouchedApplies(w, step);
  }

  lemma {:induction false} TouchedApplies(w: World, step: Step)
    requires Touched(w, step).Some?
    ensures Apply(w, step) == WithOp(w, Touched(w, step).value.0, Touched(w, step).value.1)
  {
  }

  lemma {:induction false} EnqueueStepKeeps(
      w: World, id: OperationId, application: ApplicationId, kind: Kind, expected: Option<DocumentHash>)
    requires Inv(w)
    ensures var v := Apply(w, Enqueue(id, application, kind, expected)); Inv(v) && Follows(w, v)
  {
    if id in w.ops || application in w.deleted {
      UnchangedOpsKeep(w, w);
    } else {
      EnqueueKeeps(w, id, NewRow(application, kind, expected));
    }
  }

  lemma {:induction false} UserStepKeeps(w: World, application: ApplicationId, read: Body, result: Body)
    requires Inv(w)
    ensures var v := Apply(w, UserWrite(application, read, result)); Inv(v) && Follows(w, v)
  {
    if Stored(w, application) == Some(read) {
      UserWriteKeeps(w, Write(application, User, Some(read), result));
    } else {
      UnchangedOpsKeep(w, w);
    }
  }

  lemma {:induction false} ClaimStepKeeps(w: World, runner: RunnerId, id: OperationId)
    requires Inv(w)
    ensures var v := Apply(w, Claim(runner, id)); Inv(v) && Follows(w, v)
  {
    if Apply(w, Claim(runner, id)) == w {
      UnchangedOpsKeep(w, w);
    } else {
      ClaimKeepsInv(w, id, runner);
    }
  }

  lemma {:induction false} OtherStepKeeps(w: World, step: Step)
    requires Inv(w) && Touched(w, step).None? && !step.Recover? && !step.Kill?
    ensures Inv(Apply(w, step)) && Follows(w, Apply(w, step))
  {
    match step {
      case Enqueue(id, application, kind, expected) => EnqueueStepKeeps(w, id, application, kind, expected);
      case UserWrite(application, read, result) => UserStepKeeps(w, application, read, result);
      case Claim(runner, id) => ClaimStepKeeps(w, runner, id);
      case Activate(id, external, accepts, refusal, commits) =>
        if id in w.ops && Activates(w.ops[id], VerdictOf(w, w.ops[id].row, external, accepts, refusal, commits)) {
          ActivationKeeps(w, id, external, accepts, refusal, commits);
        } else {
          RefusedActivationIsQuiet(w, id, external, accepts, refusal, commits);
          QuietKeeps(w, Apply(w, step));
        }
      case _ => BystanderStepKeeps(w, step);
    }
  }

  /** A step of the workers alone, or one that finds nothing to do. */
  lemma {:induction false} BystanderStepKeeps(w: World, step: Step)
    requires Inv(w) && Touched(w, step).None? && !step.Recover? && !step.Kill?
    requires !step.Enqueue? && !step.UserWrite? && !step.Claim? && !step.Activate?
    ensures Inv(Apply(w, step)) && Follows(w, Apply(w, step))
  {
    BystanderStepChangesNoOperation(w, step);
    UnchangedOpsKeep(w, Apply(w, step));
  }

  lemma {:induction false} BystanderStepChangesNoOperation(w: World, step: Step)
    requires Touched(w, step).None? && !step.Recover? && !step.Kill?
    requires !step.Enqueue? && !step.UserWrite? && !step.Claim? && !step.Activate?
    ensures Apply(w, step).ops == w.ops && Apply(w, step).log == w.log && Apply(w, step).documents == w.documents
  {
  }

  lemma {:induction false} StepKeeps(w: World, step: Step)
    requires Inv(w)
    ensures Inv(Apply(w, step)) && Follows(w, Apply(w, step))
  {
    if Touched(w, step).Some? {
      TouchedIsQuiet(w, step);
      QuietKeeps(w, Apply(w, step));
    } else if (step.Recover? || step.Kill?) && Apply(w, step) != w {
      SweepIsQuiet(w, Apply(w, step), step.runner);
      QuietKeeps(w, Apply(w, step));
    } else if step.Recover? || step.Kill? {
      UnchangedOpsKeep(w, w);
    } else {
      OtherStepKeeps(w, step);
    }
  }

  lemma {:induction false} RefusedActivationIsQuiet(
      w: World, id: OperationId, external: bool, accepts: bool, refusal: FailureCode, commits: bool)
    requires EachHolds(w)
    requires id in w.ops ==> !Activates(w.ops[id], VerdictOf(w, w.ops[id].row, external, accepts, refusal, commits))
    ensures AllQuiet(w, Apply(w, Activate(id, external, accepts, refusal, commits)))
  {
    if id in w.ops {
      var verdict := VerdictOf(w, w.ops[id].row, external, accepts, refusal, commits);
      UnactivatedOp(w.ops[id], verdict);
      ChangeIsQuiet(w, id, ActivateOp(w.ops[id], verdict));
    } else {
      forall other | other in w.ops
        ensures Steady(w.ops[other], w.ops[other])
      {
        StaysQuiet(w.ops[other]);
      }
    }
  }

  // ----- every run -----

  lemma {:induction false} ReachableHolds(steps: seq<Step>)
    ensures Inv(Execute(START, steps))
  {
    if steps != [] {
      ReachableHolds(steps[..|steps| - 1]);
      StepKeeps(Execute(START, steps[..|steps| - 1]), steps[|steps| - 1]);
    }
  }

  lemma {:induction false} ReachableStep(steps: seq<Step>, step: Step)
    ensures Follows(Execute(START, steps), Apply(Execute(START, steps), step))
  {
    ReachableHolds(steps);
    StepKeeps(Execute(START, steps), step);
  }

  lemma {:induction false} ReachableStays(steps: seq<Step>)
    ensures Follows(Execute(START, steps), Execute(START, steps))
  {
    ReachableHolds(steps);
    UnchangedOpsKeep(Execute(START, steps), Execute(START, steps));
  }

  lemma {:induction false} FollowsChain(a: World, b: World, c: World)
    requires Follows(a, b) && Follows(b, c)
    ensures Follows(a, c)
  {
    forall id | id in a.ops
      ensures id in c.ops && Evolves(a.ops[id], c.ops[id])
    {
      assert Evolves(a.ops[id], b.ops[id]) && Evolves(b.ops[id], c.ops[id]);
    }
  }

  lemma {:induction false} LaterFollows(steps: seq<Step>, more: seq<Step>)
    ensures Follows(Execute(START, steps), Execute(START, steps + more))
  {
    if more == [] {
      assert steps + more == steps;
      ReachableStays(steps);
    } else {
      var shorter := more[..|more| - 1];
      LaterFollows(steps, shorter);
      ReachableStep(steps + shorter, more[|more| - 1]);
      LastApart(steps, more);
      ExecuteExtends(steps + shorter, more[|more| - 1]);
      FollowsChain(Execute(START, steps), Execute(START, steps + shorter), Execute(START, steps + more));
    }
  }

  lemma {:induction false} ExecuteExtends(steps: seq<Step>, step: Step)
    ensures Execute(START, steps + [step]) == Apply(Execute(START, steps), step)
  {
    assert (steps + [step])[..|steps + [step]| - 1] == steps;
  }

  lemma {:induction false} LastApart(steps: seq<Step>, more: seq<Step>)
    requires more != []
    ensures steps + more == steps + more[..|more| - 1] + [more[|more| - 1]]
  {
  }
}
