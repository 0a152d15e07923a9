/** Which render failure a document shows (application/state.py, infrastructure/persistence/
    documents.py): the last thing that happened to its render error, while it is still the
    document that failed. */
module RenderErrors {
  import opened Wrappers
  import opened DocumentState
  import opened DocumentHistory

  /** `current_render_error`: a failure of other content, analysis or template is not shown. */
  function CurrentRenderError(document: Option<Document>): Option<Digest> {
    match document
    case None => None
    case Some(d) =>
      if d.renderError.None? || d.renderError.value != HashOfDocument(d) then None else d.renderError
  }

  predicate LandsRender(w: World, k: nat) {
    && k in w.flights && w.flights[k].Rendering?
    && w.document.Some? && HashOfDocument(w.document.value) == HashOfDocument(w.flights[k].read)
  }

  /** A render of the document as it is breaks. */
  predicate Fails(w: World, step: Step) {
    step.FailRender? && LandsRender(w, step.flight)
  }

  /** A render of the approved document as it is succeeds, or another analysis starts it over. */
  predicate Clears(w: World, step: Step) {
    || (step.EndRender? && LandsRender(w, step.flight)
        && w.document.value.approvedBasis == Some(Basis(w.document.value, w.facts)))
    || (step.Repin? && w.document.Some? && step.expected == HashOfDocument(w.document.value)
        && step.analysis != w.document.value.analysis)
  }

  /** Step i was a failed render of the document with this hash; none failed or cleared it since. */
  ghost predicate FailedLast(steps: seq<Step>, i: int, hash: Digest) {
    && 0 <= i < |steps| && Fails(Execute(START, steps[..i]), steps[i])
    && HashOfDocument(Execute(START, steps[..i]).document.value) == hash
    && forall j :: i < j < |steps| ==>
         !Fails(Execute(START, steps[..j]), steps[j]) && !Clears(Execute(START, steps[..j]), steps[j])
  }

  ghost predicate Stores(w: World, hash: Digest) {
    w.document.Some? && w.document.value.renderError == Some(hash)
  }

  /** What one step does to the stored error. */
  lemma {:induction false} StepStores(w: World, step: Step, hash: Digest)
    ensures Stores(Apply(w, step), hash) <==>
      if Fails(w, step) then HashOfDocument(w.document.value) == hash
      else !Clears(w, step) && Stores(w, hash)
  {
  }

  lemma {:induction false} FailedOneMore(steps: seq<Step>, i: int, hash: Digest)
    requires steps != []
    ensures var before, last := Execute(START, steps[..|steps| - 1]), steps[|steps| - 1];
      FailedLast(steps, i, hash) <==>
        if i == |steps| - 1 then Fails(before, last) && HashOfDocument(before.document.value) == hash
        else !Fails(before, last) && !Clears(before, last) && FailedLast(steps[..|steps| - 1], i, hash)
  {
    var shorter := steps[..|steps| - 1];
    forall j | 0 <= j < |shorter|
      ensures shorter[..j] == steps[..j]
    {
    }
  }

  /** The stored error is that of the last failure nothing cleared, in any run. */
  lemma {:induction false} StoredErrorExactly(steps: seq<Step>, hash: Digest)
    ensures Stores(Execute(START, steps), hash) <==> exists i :: FailedLast(steps, i, hash)
  {
    if steps != [] {
      var shorter := steps[..|steps| - 1];
      StoredErrorExactly(shorter, hash);
      StepStores(Execute(START, shorter), steps[|steps| - 1], hash);
      if Stores(Execute(START, steps), hash) {
        if Fails(Execute(START, shorter), steps[|steps| - 1]) {
          FailedOneMore(steps, |steps| - 1, hash);
        } else {
          var i :| FailedLast(shorter, i, hash);
          FailedOneMore(steps, i, hash);
        }
      }
      forall i | FailedLast(steps, i, hash)
        ensures Stores(Execute(START, steps), hash)
      {
        FailedOneMore(steps, i, hash);
      }
    }
  }

  /** A document shows a render error exactly when a render of it, as it is now, failed and
      neither another failure, nor a render, nor another analysis has come since. */
  lemma {:induction false} RenderErrorShownExactly(steps: seq<Step>)
    requires Execute(START, steps).document.Some?
    ensures var d := Execute(START, steps).document.value;
      CurrentRenderError(Some(d)).Some? <==> exists i :: FailedLast(steps, i, HashOfDocument(d))
  {
    StoredErrorExactly(steps, HashOfDocument(Execute(START, steps).document.value));
  }
}
