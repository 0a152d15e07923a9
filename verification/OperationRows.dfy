/** The stored Operation row and the store calls that change it
    (application/operations.py, infrastructure/persistence/operation_execution.py and
    operation_client.py, alembic/versions/0001_postgresql_baseline.py). */
module OperationRows {
  import opened Wrappers

  type OperationId = string
  type ApplicationId = string
  type RunnerId = string

  datatype Status = Queued | Running | Succeeded | Failed | Cancelled | Interrupted

  predicate Terminal(status: Status) {
    status.Succeeded? || status.Failed? || status.Cancelled? || status.Interrupted?
  }

  datatype Kind =
    | AnalyzeJob | CreateDraft | RegenerateSection | RegenerateClaim | RenderDocument | AskGapQuestions | DraftGapFact

  /** Operations that carry the document hash their author froze, and act on that document. */
  predicate ActsOnDocument(kind: Kind) {
    kind.CreateDraft? || kind.RegenerateSection? || kind.RegenerateClaim? || kind.RenderDocument?
  }

  datatype FailureCode =
    | SourceChanged | MissingFactRendering | CancelledBeforeActivation | ExecutionFailed | OtherFailure(name: string)

  /** What the document hash covers; the hash itself is an injective constructor. */
  datatype Body = Body(analysis: string, content: Option<string>, template: Option<string>)

  datatype DocumentHash = HashOf(body: Body)

  datatype Row = Row(
    application: ApplicationId,
    kind: Kind,
    expected: Option<DocumentHash>,
    status: Status,
    lease: Option<RunnerId>,
    cancelRequested: bool,
    failure: Option<FailureCode>,
    finished: bool,
    outputs: seq<string>)

  // ----- the database's own guards -----

  /** The CHECK constraints of the table. */
  predicate ChecksHold(row: Row) {
    && (row.status.Running? <==> row.lease.Some?)
    && (Terminal(row.status) <==> row.finished)
    && (row.failure.Some? ==> row.status.Failed? || row.status.Cancelled?)
    && (row.status.Failed? ==> row.failure.Some?)
  }

  /** The partial unique indexes: one running Operation an Application, one running render. */
  ghost predicate Exclusive(rows: map<OperationId, Row>) {
    forall a, b :: a in rows && b in rows && a != b && rows[a].status.Running? && rows[b].status.Running? ==>
      && rows[a].application != rows[b].application
      && !(rows[a].kind.RenderDocument? && rows[b].kind.RenderDocument?)
  }

  /** Claiming this row would break neither index. */
  predicate ClaimGuardsAllow(rows: map<OperationId, Row>, id: OperationId)
    requires id in rows
  {
    forall other :: other in rows && rows[other].status.Running? ==>
      && rows[other].application != rows[id].application
      && !(rows[other].kind.RenderDocument? && rows[id].kind.RenderDocument?)
  }

  // ----- what each call makes of a row -----

  function NewRow(application: ApplicationId, kind: Kind, expected: Option<DocumentHash>): Row {
    Row(application, kind, expected, Queued, None, false, None, false, [])
  }

  predicate OwnedBy(row: Row, runner: RunnerId) {
    row.status.Running? && row.lease == Some(runner)
  }

  function ClaimedRow(row: Row, runner: RunnerId): Row {
    row.(status := Running, lease := Some(runner))
  }

  /** A queued Operation is cancelled at once, a running one is asked to stop, a terminal
      one is left alone. */
  function CancelRequestedRow(row: Row): Row {
    if row.status.Queued? then row.(status := Cancelled, finished := true, cancelRequested := true)
    else if row.status.Running? then row.(cancelRequested := true)
    else row
  }

  function InterruptedRow(row: Row): Row {
    if row.status.Running? then row.(status := Interrupted, finished := true, lease := None) else row
  }

  /** Completion yields cancelled when cancellation was requested. */
  function CompletedRow(row: Row): Row {
    if row.cancelRequested
    then row.(status := Cancelled, failure := Some(CancelledBeforeActivation), finished := true, lease := None)
    else row.(status := Succeeded, finished := true, lease := None)
  }

  function FailedRow(row: Row, code: FailureCode): Row {
    row.(status := Failed, failure := Some(code), finished := true, lease := None)
  }

  // ----- the store -----

  datatype StoreError = UnknownRecord | LeaseNotOwned | OutputRefused | KeyReused | TerminalRow

  class OperationStore {
    var rows: map<OperationId, Row>

    constructor ()
      ensures rows == map[]
    {
      rows := map[];
    }

    /** Claim one queued row, unless a rival holds its lock or a claim guard refuses it. */
    method ClaimOperation(id: OperationId, runner: RunnerId, locked: set<OperationId>)
      returns (claimed: Result<Option<Row>, StoreError>)
      modifies this
      ensures claimed.Err? <==> id !in old(rows)
      ensures claimed.Ok? ==> (claimed.value.Some? <==>
        id !in locked && old(rows)[id].status.Queued? && ClaimGuardsAllow(old(rows), id))
      ensures claimed.Ok? && claimed.value.Some? ==>
        claimed.value.value == ClaimedRow(old(rows)[id], runner) && rows == old(rows)[id := claimed.value.value]
      ensures claimed.Err? || claimed.value.None? ==> rows == old(rows)
      ensures old(Exclusive(rows)) ==> Exclusive(rows)
    {
      if id !in rows {
        return Err(UnknownRecord);
      }
      if id in locked || !rows[id].status.Queued? || !ClaimGuardsAllow(rows, id) {
        return Ok(None);
      }
      rows := rows[id := ClaimedRow(rows[id], runner)];
      return Ok(Some(rows[id]));
    }

    /** The first claimable row in queue order; a claim lost to a rival moves on to the next. */
    method ClaimNextOperation(queue: seq<OperationId>, runner: RunnerId, locked: set<OperationId>)
      returns (claimed: Option<OperationId>)
      requires forall id :: id in queue ==> id in rows
      modifies this
      ensures claimed.None? ==>
        && rows == old(rows)
        && forall id :: id in queue ==>
             !(id !in locked && old(rows)[id].status.Queued? && ClaimGuardsAllow(old(rows), id))
      ensures claimed.Some? ==> exists k ::
        && 0 <= k < |queue| && queue[k] == claimed.value
        && queue[k] !in locked && old(rows)[queue[k]].status.Queued? && ClaimGuardsAllow(old(rows), queue[k])
        && rows == old(rows)[queue[k] := ClaimedRow(old(rows)[queue[k]], runner)]
        && forall j :: 0 <= j < k ==>
             !(queue[j] !in locked && old(rows)[queue[j]].status.Queued? && ClaimGuardsAllow(old(rows), queue[j]))
      ensures old(Exclusive(rows)) ==> Exclusive(rows)
    {
      for k := 0 to |queue|
        invariant rows == old(rows)
        invariant forall j :: 0 <= j < k ==>
          !(queue[j] !in locked && old(rows)[queue[j]].status.Queued? && ClaimGuardsAllow(old(rows), queue[j]))
      {
        if rows[queue[k]].status.Queued? && ClaimGuardsAllow(rows, queue[k]) {
          var row := ClaimOperation(queue[k], runner, locked);
          if row.value.Some? {
            return Some(queue[k]);
          }
        }
      }
      claimed := None;
    }

    /** A fresh worker's sweep: every running row, and no other, is interrupted. */
    method InterruptClaims() returns (interrupted: set<OperationId>)
      modifies this
      ensures rows == map id | id in old(rows) :: InterruptedRow(old(rows)[id])
      ensures interrupted == set id | id in old(rows) && old(rows)[id].status.Running?
      ensures forall id :: id in rows ==> !rows[id].status.Running?
    {
      interrupted := set id | id in rows && rows[id].status.Running?;
      var todo := interrupted;
      while todo != {}
        invariant todo <= interrupted
        invariant rows == map id | id in old(rows) ::
          if id in interrupted && id !in todo then InterruptedRow(old(rows)[id]) else old(rows)[id]
        decreases todo
      {
        var id :| id in todo;
        rows := rows[id := rows[id].(status := Interrupted, finished := true, lease := None)];
        todo := todo - {id};
      }
    }

    method RequestCancellation(id: OperationId) returns (row: Result<Row, StoreError>)
      modifies this
      ensures row == if id in old(rows) then Ok(CancelRequestedRow(old(rows)[id])) else Err(UnknownRecord)
      ensures rows == if row.Ok? then old(rows)[id := row.value] else old(rows)
    {
      if id !in rows {
        return Err(UnknownRecord);
      }
      if rows[id].status.Queued? {
        rows := rows[id := rows[id].(status := Cancelled, finished := true, cancelRequested := true)];
      } else if rows[id].status.Running? && !rows[id].cancelRequested {
        rows := rows[id := rows[id].(cancelRequested := true)];
      }
      return Ok(rows[id]);
    }

    /** Only the runner holding the lease completes an Operation. */
    method CompleteOperation(id: OperationId, runner: RunnerId) returns (row: Result<Row, StoreError>)
      modifies this
      ensures row.Ok? <==> id in old(rows) && OwnedBy(old(rows)[id], runner)
      ensures row.Ok? ==> row.value == CompletedRow(old(rows)[id]) && rows == old(rows)[id := row.value]
      ensures row.Err? ==> rows == old(rows)
    {
      if id !in rows || !OwnedBy(rows[id], runner) {
        return Err(LeaseNotOwned);
      }
      var current := rows[id];
      if current.cancelRequested {
        current := current.(status := Cancelled, failure := Some(CancelledBeforeActivation));
      } else {
        current := current.(status := Succeeded);
      }
      rows := rows[id := current.(finished := true, lease := None)];
      return Ok(rows[id]);
    }

    method FailOperation(id: OperationId, code: FailureCode, runner: RunnerId) returns (row: Result<Row, StoreError>)
      modifies this
      ensures row.Ok? <==> id in old(rows) && OwnedBy(old(rows)[id], runner)
      ensures row.Ok? ==> row.value == FailedRow(old(rows)[id], code) && rows == old(rows)[id := row.value]
      ensures row.Ok? ==> row.value.status.Failed? && row.value.failure == Some(code) && row.value.lease.None?
      ensures row.Err? ==> rows == old(rows)
    {
      if id !in rows || !OwnedBy(rows[id], runner) {
        return Err(LeaseNotOwned);
      }
      rows := rows[id := rows[id].(status := Failed, failure := Some(code), finished := true, lease := None)];
      return Ok(rows[id]);
    }

    /** An output is recorded only while the Operation runs and nobody asked it to stop. */
    method RecordOutput(id: OperationId, output: string) returns (result: Result<(), StoreError>)
      modifies this
      ensures result.Ok? <==> id in old(rows) && old(rows)[id].status.Running? && !old(rows)[id].cancelRequested
      ensures rows ==
        if result.Ok? then old(rows)[id := old(rows)[id].(outputs := old(rows)[id].outputs + [output])] else old(rows)
    {
      if id !in rows {
        return Err(UnknownRecord);
      }
      if !rows[id].status.Running? || rows[id].cancelRequested {
        return Err(OutputRefused);
      }
      rows := rows[id := rows[id].(outputs := rows[id].outputs + [output])];
      return Ok(());
    }
  }

  // ----- the client's actions -----

  /** Which commands the client is offered (`available_operation_actions`). */
  predicate OffersCancel(row: Row) {
    (row.status.Queued? || row.status.Running?) && !row.cancelRequested
  }

  predicate OffersRetry(row: Row) {
    Terminal(row.status) &&
    !(row.status.Failed? && (row.failure == Some(MissingFactRendering) || row.failure == Some(SourceChanged)))
  }

  datatype RetryRefusal = ApplicationDeleted | NotTerminal | FrozenSourcesFailed(code: FailureCode) | DocumentGone

  /** The retry command: a new Operation from the old one's inputs, frozen on the document as
      it is now, or why there is none (`OperationLifecycleService.retry`). */
  function Retry(row: Row, deleted: bool, document: Option<DocumentHash>): Result<Row, RetryRefusal> {
    if deleted then Err(ApplicationDeleted)
    else if !Terminal(row.status) then Err(NotTerminal)
    else if row.failure == Some(MissingFactRendering) || row.failure == Some(SourceChanged) then
      Err(FrozenSourcesFailed(row.failure.value))
    else if row.expected.Some? && document.None? then Err(DocumentGone)
    else Ok(NewRow(row.application, row.kind, if row.expected.Some? then document else None))
  }
}
