/** Which of an Application's live Operations a projection shows
    (infrastructure/persistence/application_projections.py). */
module ActiveOperation {
  import opened Wrappers
  import opened OperationRows

  predicate Live(row: Row) {
    row.status.Queued? || row.status.Running?
  }

  /** The query's order over rows in order of creation: running before queued, then older first. */
  predicate Ahead(rows: seq<Row>, j: nat, k: nat)
    requires j < |rows| && k < |rows|
  {
    if rows[j].status.Running? != rows[k].status.Running? then rows[j].status.Running? else j < k
  }

  function FirstWith(rows: seq<Row>, status: Status): (first: Option<nat>)
    ensures first.Some? ==>
      && first.value < |rows| && rows[first.value].status == status
      && forall j :: 0 <= j < first.value ==> rows[j].status != status
    ensures first.None? ==> forall j :: 0 <= j < |rows| ==> rows[j].status != status
  {
    if rows == [] then None
    else
      match FirstWith(rows[..|rows| - 1], status)
      case Some(k) => Some(k)
      case None => if rows[|rows| - 1].status == status then Some(|rows| - 1) else None
  }

  /** `active_operation`: the running row, or else the oldest queued one. */
  function Active(rows: seq<Row>): (at: Option<nat>)
    ensures at.Some? ==> at.value < |rows| && Live(rows[at.value])
  {
    match FirstWith(rows, Running)
    case Some(k) => Some(k)
    case None => FirstWith(rows, Queued)
  }

  predicate ActiveIs(rows: seq<Row>, kinds: set<Kind>) {
    Active(rows).Some? && rows[Active(rows).value].kind in kinds
  }

  /** Some Operation of these kinds is queued or running. */
  predicate AnyLive(rows: seq<Row>, kinds: set<Kind>) {
    exists k :: 0 <= k < |rows| && Live(rows[k]) && rows[k].kind in kinds
  }

  /** What the partial unique index leaves: at most one running Operation. */
  predicate OneRuns(rows: seq<Row>) {
    forall j, k :: 0 <= j < k < |rows| ==> !(rows[j].status.Running? && rows[k].status.Running?)
  }

  /** A live Operation of another kind is ahead of every one of these kinds. */
  predicate Overtaken(rows: seq<Row>, kinds: set<Kind>) {
    exists j :: 0 <= j < |rows| && Live(rows[j]) && rows[j].kind !in kinds && LeadsAll(rows, j, kinds)
  }

  predicate LeadsAll(rows: seq<Row>, j: nat, kinds: set<Kind>)
    requires j < |rows|
  {
    forall k :: 0 <= k < |rows| && Live(rows[k]) && rows[k].kind in kinds ==> Ahead(rows, j, k)
  }

  /** The query's first row: live, and ahead of every other live row. */
  lemma {:induction false} ActiveLeads(rows: seq<Row>)
    ensures Active(rows).None? <==> forall k :: 0 <= k < |rows| ==> !Live(rows[k])
    ensures Active(rows).Some? ==>
      forall k :: 0 <= k < |rows| && Live(rows[k]) && k != Active(rows).value ==> Ahead(rows, Active(rows).value, k)
  {
  }

  /** A live Operation is the one shown exactly when it runs, or nothing runs and none was
      queued before it. */
  lemma {:induction false} ShownExactly(rows: seq<Row>, k: nat)
    requires OneRuns(rows) && k < |rows| && Live(rows[k])
    ensures Active(rows) == Some(k) <==>
      || rows[k].status.Running?
      || forall j :: 0 <= j < |rows| ==> !rows[j].status.Running? && (j < k ==> !rows[j].status.Queued?)
  {
    ActiveLeads(rows);
  }

  /** Looking at the one row shown misses a live Operation of these kinds exactly when
      another kind is ahead of all of them. */
  lemma {:induction false} MissedExactly(rows: seq<Row>, kinds: set<Kind>)
    ensures ActiveIs(rows, kinds) ==> AnyLive(rows, kinds)
    ensures AnyLive(rows, kinds) ==> (!ActiveIs(rows, kinds) <==> Overtaken(rows, kinds))
  {
    ActiveLeads(rows);
    if AnyLive(rows, kinds) && !ActiveIs(rows, kinds) {
      assert LeadsAll(rows, Active(rows).value, kinds);
    }
    if j :| 0 <= j < |rows| && Live(rows[j]) && rows[j].kind !in kinds && LeadsAll(rows, j, kinds) {
      OvertakenIsMissed(rows, kinds, j);
    }
  }

  lemma {:induction false} OvertakenIsMissed(rows: seq<Row>, kinds: set<Kind>, j: nat)
    requires j < |rows| && Live(rows[j]) && rows[j].kind !in kinds && LeadsAll(rows, j, kinds)
    ensures !ActiveIs(rows, kinds)
  {
    ActiveLeads(rows);
  }
}
