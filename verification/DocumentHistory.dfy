/** The life of one document: every write the store accepts, in any order, with checks,
    approvals and renders in flight (infrastructure/persistence/documents.py,
    services/drafts/review.py, services/rendering.py). */
module DocumentHistory {
  import opened Wrappers
  import opened Contracts
  import opened FactDigests
  import opened DocumentState

  /** What a command read before it writes. The validation's outcome is the reader's. */
  datatype Flight =
    | Checking(read: Document, facts: FactStore, passed: bool)
    | Approving(read: Document, facts: FactStore, passed: bool)
    | Rendering(read: Document, files: string)

  /** What was vouched for, and in which state of the facts. */
  datatype Event =
    | CheckedAt(content: Draft, analysis: string, facts: FactStore, passed: bool)
    | ApprovedAt(content: Draft, analysis: string, facts: FactStore)
    | RenderedAt(content: Draft, analysis: string, template: Option<string>, facts: FactStore)

  datatype World = World(document: Option<Document>, facts: FactStore, flights: map<nat, Flight>, log: seq<Event>)

  const START := World(None, map[], map[], [])

  datatype Step =
    | ChangeFacts(facts: FactStore)
    | Create(analysis: string, content: Option<Draft>, template: Option<string>)
    | UpdateBody(expected: Digest, analysis: string, content: Option<Draft>)
    | SetTemplate(expected: Digest, template: Option<string>)
    | Repin(expected: Digest, analysis: string)
    | BeginCheck(flight: nat, expected: Digest, passed: bool)
    | BeginApproval(flight: nat, expected: Digest, passed: bool)
    | BeginRender(flight: nat, expected: Digest, files: string)
    | EndCheck(flight: nat)
    | EndApproval(flight: nat)
    | EndRender(flight: nat)
    | FailRender(flight: nat)

  // ----- the store's writes -----

  function NewDocument(analysis: string, content: Option<Draft>, template: Option<string>): Document {
    Document(analysis, content, template, None, None, None, None, None, None)
  }

  /** A body write keeps the analysis, and never removes content. */
  predicate BodyAllowed(d: Document, analysis: string, content: Option<Draft>) {
    analysis == d.analysis && (content.None? ==> d.content.None?)
  }

  /** Re-pinning starts the document over, without content and without stamps. */
  function Repinned(d: Document, analysis: string): Document {
    NewDocument(analysis, None, d.template)
  }

  function CheckStamped(d: Document, basis: Digest, passed: bool): Document {
    d.(checkedBasis := Some(basis), passed := Some(passed))
  }

  /** The existing approval answers while its report is current too. */
  predicate ExistingApproval(d: Document, basis: Digest) {
    d.passed.Some? && d.approvedBasis == Some(basis) && d.checkedBasis == Some(basis)
  }

  /** Check stamp first; the approval stamp only on a pass, and not again at the same basis. */
  function ApprovalStamped(d: Document, basis: Digest, passed: bool): Document {
    if ExistingApproval(d, basis) then d
    else
      var checked := CheckStamped(d, basis, passed);
      if passed && d.approvedBasis != Some(basis) then checked.(approvedBasis := Some(basis)) else checked
  }

  predicate StampsApproval(d: Document, basis: Digest, passed: bool) {
    !ExistingApproval(d, basis) && passed && d.approvedBasis != Some(basis)
  }

  function RenderStamped(d: Document, basis: Digest, files: string): Document {
    d.(renderedBasis := Some(RenderBasis(d.template, basis)), files := Some(files), renderError := None)
  }

  // ----- steps -----

  /** The hash a command carries must be the document's: optimistic concurrency. */
  predicate Current(w: World, expected: Digest) {
    w.document.Some? && HashOfDocument(w.document.value) == expected
  }

  predicate Lands(w: World, k: nat) {
    k in w.flights && Current(w, HashOfDocument(w.flights[k].read))
  }

  function WithDocument(w: World, d: Document): World { w.(document := Some(d)) }

  function Apply(w: World, step: Step): World {
    match step
    case ChangeFacts(facts) => w.(facts := facts)
    case Create(analysis, content, template) =>
      if w.document.Some? then w else WithDocument(w, NewDocument(analysis, content, template))
    case UpdateBody(expected, analysis, content) =>
      if !Current(w, expected) || !BodyAllowed(w.document.value, analysis, content) then w
      else WithDocument(w, w.document.value.(content := content))
    case SetTemplate(expected, template) =>
      if !Current(w, expected) then w else WithDocument(w, w.document.value.(template := template))
    case Repin(expected, analysis) =>
      if !Current(w, expected) || analysis == w.document.value.analysis then w
      else WithDocument(w, Repinned(w.document.value, analysis))
    case BeginCheck(k, expected, passed) =>
      if !Current(w, expected) || w.document.value.content.None? then w
      else w.(flights := w.flights[k := Checking(w.document.value, w.facts, passed)])
    case BeginApproval(k, expected, passed) =>
      if !Current(w, expected) || w.document.value.content.None?
         || ExistingApproval(w.document.value, Basis(w.document.value, w.facts))
         || ReviewReasons(w.document.value.content, w.facts) != [] then w
      else w.(flights := w.flights[k := Approving(w.document.value, w.facts, passed)])
    case BeginRender(k, expected, files) =>
      if !Current(w, expected) || w.document.value.content.None? then w
      else w.(flights := w.flights[k := Rendering(w.document.value, files)])
    case EndCheck(k) =>
      if !Lands(w, k) || !w.flights[k].Checking? then w else Check(w, w.flights[k])
    case EndApproval(k) => if !Lands(w, k) || !w.flights[k].Approving? then w else Approve(w, w.flights[k])
    case EndRender(k) =>
      if !Lands(w, k) || !w.flights[k].Rendering?
         || w.document.value.approvedBasis != Some(Basis(w.document.value, w.facts))
      then w
      else RenderInto(w, w.flights[k])
    case FailRender(k) =>
      if !Lands(w, k) || !w.flights[k].Rendering? then w
      else WithDocument(w, w.document.value.(renderError := Some(HashOfDocument(w.flights[k].read))))
  }

  function Check(w: World, flight: Flight): World
    requires w.document.Some? && flight.Checking?
  {
    var basis := Basis(flight.read, flight.facts);
    w.(document := Some(CheckStamped(w.document.value, basis, flight.passed)), log := w.log + Checked(flight))
  }

  function Approve(w: World, flight: Flight): World
    requires w.document.Some? && flight.Approving?
  {
    var basis := Basis(flight.read, flight.facts);
    var after := WithDocument(w, ApprovalStamped(w.document.value, basis, flight.passed));
    if ExistingApproval(w.document.value, basis) then after
    else if StampsApproval(w.document.value, basis, flight.passed) && flight.read.content.Some? then
      after.(log := w.log + Checked(flight) +
                    [ApprovedAt(flight.read.content.value, flight.read.analysis, flight.facts)])
    else after.(log := w.log + Checked(flight))
  }

  /** The check a flight that carries a report performed. */
  function Checked(flight: Flight): seq<Event>
    requires !flight.Rendering?
  {
    if flight.read.content.None? then []
    else [CheckedAt(flight.read.content.value, flight.read.analysis, flight.facts, flight.passed)]
  }

  /** What was rendered is what the flight had read; what it is stamped with is the
      document under the lock. */
  function RenderInto(w: World, flight: Flight): World
    requires w.document.Some? && flight.Rendering?
  {
    var after := WithDocument(w, RenderStamped(w.document.value, Basis(w.document.value, w.facts), flight.files));
    if flight.read.content.Some?
    then
      var read := flight.read;
      after.(log := w.log + [RenderedAt(read.content.value, read.analysis, read.template, w.facts)])
    else after
  }

  function Execute(w: World, steps: seq<Step>): World {
    if steps == [] then w else Apply(Execute(w, steps[..|steps| - 1]), steps[|steps| - 1])
  }

  /** A knowledge store keeps every fact under its own identity. */
  ghost predicate StepsKeyed(steps: seq<Step>) {
    forall step :: step in steps && step.ChangeFacts? ==> Keyed(step.facts)
  }

  // ----- what every step keeps -----

  function BasisOfEvent(event: Event): Digest {
    BasisOf(event.analysis, Some(event.content), event.facts)
  }

  /** The stamp was earned: an approval of exactly this basis, by a reader who saw no reason
      to review it. */
  ghost predicate CheckAt(log: seq<Event>, i: int, basis: Digest, passed: bool) {
    0 <= i < |log| && log[i].CheckedAt? && BasisOfEvent(log[i]) == basis && log[i].passed == passed
  }

  ghost predicate ApprovalAt(log: seq<Event>, i: int, basis: Digest) {
    0 <= i < |log| && log[i].ApprovedAt? && BasisOfEvent(log[i]) == basis
  }

  ghost predicate RenderAfter(log: seq<Event>, i: int, j: int, stamp: Digest) {
    && 0 <= i < j < |log| && log[j].RenderedAt? && ApprovalAt(log, i, BasisOfEvent(log[j]))
    && stamp == RenderBasis(log[j].template, BasisOfEvent(log[j]))
  }

  ghost predicate EventsHold(log: seq<Event>) {
    forall i :: 0 <= i < |log| ==>
      && Keyed(log[i].facts)
      && (log[i].ApprovedAt? ==> ReviewReasons(Some(log[i].content), log[i].facts) == [] && OnPass(log, i))
  }

  /** The approval at i was given on a check that had just passed. */
  predicate OnPass(log: seq<Event>, i: int)
    requires 0 <= i < |log| && log[i].ApprovedAt?
  {
    0 < i && log[i - 1] == CheckedAt(log[i].content, log[i].analysis, log[i].facts, true)
  }

  ghost predicate Earned(d: Document, log: seq<Event>) {
    && (d.checkedBasis.Some? && d.passed.Some? ==>
          exists i :: CheckAt(log, i, d.checkedBasis.value, d.passed.value))
    && (d.approvedBasis.Some? ==> exists i :: ApprovalAt(log, i, d.approvedBasis.value))
    && (d.renderedBasis.Some? ==> exists i, j :: RenderAfter(log, i, j, d.renderedBasis.value))
  }

  /** The stamp CHECKs of the table: stamps come whole, and an empty document has none. */
  predicate StampsHold(d: Document) {
    && (d.checkedBasis.Some? <==> d.passed.Some?)
    && (d.renderedBasis.Some? <==> d.files.Some?)
    && (d.content.None? ==>
          d.checkedBasis.None? && d.approvedBasis.None? && d.renderedBasis.None? && d.renderError.None?)
  }

  ghost predicate FlightHolds(flight: Flight) {
    && flight.read.content.Some?
    && (!flight.Rendering? ==> Keyed(flight.facts))
    && (flight.Approving? ==> ReviewReasons(flight.read.content, flight.facts) == [])
  }

  ghost predicate Inv(w: World) {
    && Keyed(w.facts)
    && EventsHold(w.log)
    && (forall k :: k in w.flights ==> FlightHolds(w.flights[k]))
    && (w.document.Some? ==> StampsHold(w.document.value) && Earned(w.document.value, w.log))
  }

  lemma {:induction false} EarnedLater(d: Document, log: seq<Event>, event: Event)
    requires Earned(d, log)
    ensures Earned(d, log + [event])
  {
    var longer := log + [event];
    if d.checkedBasis.Some? && d.passed.Some? {
      var i :| CheckAt(log, i, d.checkedBasis.value, d.passed.value);
      assert CheckAt(longer, i, d.checkedBasis.value, d.passed.value);
    }
    if d.approvedBasis.Some? {
      var i :| ApprovalAt(log, i, d.approvedBasis.value);
      assert ApprovalAt(longer, i, d.approvedBasis.value);
    }
    if d.renderedBasis.Some? {
      var i, j :| RenderAfter(log, i, j, d.renderedBasis.value);
      assert RenderAfter(longer, i, j, d.renderedBasis.value);
    }
  }

  /** A check that lands stamps what the flight had read, and is on record. */
  lemma {:induction false} CheckIsEarned(d: Document, log: seq<Event>, flight: Flight)
    requires Earned(d, log) && !flight.Rendering? && flight.read.content.Some?
    ensures Earned(CheckStamped(d, Basis(flight.read, flight.facts), flight.passed), log + Checked(flight))
  {
    var longer := log + Checked(flight);
    EarnedLater(d, log, Checked(flight)[0]);
    assert CheckAt(longer, |log|, Basis(flight.read, flight.facts), flight.passed);
  }

  lemma {:induction false} CheckStamps(d: Document, basis: Digest, passed: bool)
    requires StampsHold(d) && d.content.Some?
    ensures StampsHold(CheckStamped(d, basis, passed))
  {
  }

  lemma {:induction false} CheckedEventsHold(log: seq<Event>, flight: Flight)
    requires EventsHold(log) && FlightHolds(flight) && !flight.Rendering?
    ensures EventsHold(log + Checked(flight))
  {
    EventAdded(log, Checked(flight)[0]);
  }

  lemma {:induction false} CheckKeeps(w: World, k: nat)
    requires Inv(w) && Lands(w, k) && w.flights[k].Checking?
    ensures Inv(Check(w, w.flights[k]))
  {
    var d, flight := w.document.value, w.flights[k];
    assert FlightHolds(flight);
    CheckIsEarned(d, w.log, flight);
    CheckStamps(d, Basis(flight.read, flight.facts), flight.passed);
    CheckedEventsHold(w.log, flight);
  }

  lemma {:induction false} ApprovalIsEarned(d: Document, log: seq<Event>, flight: Flight)
    requires Earned(d, log) && flight.Approving? && flight.read.content.Some?
    requires flight.passed
    ensures Earned(
      d.(approvedBasis := Some(Basis(flight.read, flight.facts))),
      log + [ApprovedAt(flight.read.content.value, flight.read.analysis, flight.facts)])
  {
    var event := ApprovedAt(flight.read.content.value, flight.read.analysis, flight.facts);
    EarnedLater(d, log, event);
    assert ApprovalAt(log + [event], |log|, Basis(flight.read, flight.facts));
  }

  lemma {:induction false} ApprovedEventsHold(log: seq<Event>, flight: Flight)
    requires EventsHold(log) && FlightHolds(flight) && flight.Approving? && flight.passed
    ensures EventsHold(
      log + Checked(flight) + [ApprovedAt(flight.read.content.value, flight.read.analysis, flight.facts)])
  {
    CheckedEventsHold(log, flight);
    var checked := log + Checked(flight);
    var event := ApprovedAt(flight.read.content.value, flight.read.analysis, flight.facts);
    EventAdded(checked, event);
  }

  lemma {:induction false} EventAdded(log: seq<Event>, event: Event)
    requires EventsHold(log) && Keyed(event.facts)
    requires event.ApprovedAt? ==>
      && ReviewReasons(Some(event.content), event.facts) == []
      && log != [] && log[|log| - 1] == CheckedAt(event.content, event.analysis, event.facts, true)
    ensures EventsHold(log + [event])
  {
    var longer := log + [event];
    forall i | 0 <= i < |longer|
      ensures Keyed(longer[i].facts)
      ensures longer[i].ApprovedAt? ==>
        ReviewReasons(Some(longer[i].content), longer[i].facts) == [] && OnPass(longer, i)
    {
      if i < |log| {
        assert longer[i] == log[i];
      }
    }
  }

  lemma {:induction false} ApproveKeeps(w: World, k: nat)
    requires Inv(w) && Lands(w, k) && w.flights[k].Approving?
    ensures Inv(Approve(w, w.flights[k]))
  {
    var flight := w.flights[k];
    var d := w.document.value;
    var basis := Basis(flight.read, flight.facts);
    assert FlightHolds(flight);
    if !ExistingApproval(d, basis) {
      CheckIsEarned(d, w.log, flight);
      CheckStamps(d, basis, flight.passed);
      CheckedEventsHold(w.log, flight);
      if StampsApproval(d, basis, flight.passed) {
        ApprovedEventsHold(w.log, flight);
        ApprovalIsEarned(CheckStamped(d, basis, flight.passed), w.log + Checked(flight), flight);
      }
    }
  }

  lemma {:induction false} RenderIsEarned(d: Document, log: seq<Event>, event: Event, files: string)
    requires Earned(d, log) && d.approvedBasis.Some? && event.RenderedAt?
    requires BasisOfEvent(event) == d.approvedBasis.value && event.template == d.template
    ensures Earned(RenderStamped(d, d.approvedBasis.value, files), log + [event])
  {
    EarnedLater(d, log, event);
    var longer := log + [event];
    var i :| ApprovalAt(log, i, d.approvedBasis.value);
    assert ApprovalAt(longer, i, d.approvedBasis.value);
    assert RenderAfter(longer, i, |log|, RenderBasis(d.template, d.approvedBasis.value));
  }

  /** The lock's hash check makes what was rendered what is stamped. */
  lemma {:induction false} RenderedWhatIsStamped(read: Document, d: Document, facts: FactStore)
    requires read.content.Some? && HashOfDocument(read) == HashOfDocument(d)
    ensures var event := RenderedAt(read.content.value, read.analysis, read.template, facts);
            BasisOfEvent(event) == Basis(d, facts) && event.template == d.template
  {
  }

  lemma {:induction false} RecordedKeeps(w: World, d: Document, event: Event)
    requires Inv(w) && Keyed(event.facts) && event.RenderedAt?
    requires StampsHold(d) && Earned(d, w.log + [event])
    ensures Inv(w.(document := Some(d), log := w.log + [event]))
  {
    EventAdded(w.log, event);
  }

  lemma {:induction false} RenderedStamps(d: Document, basis: Digest, files: string)
    requires StampsHold(d) && d.content.Some?
    ensures StampsHold(RenderStamped(d, basis, files))
  {
  }

  lemma {:induction false} RenderKeeps(w: World, k: nat)
    requires Inv(w) && Lands(w, k) && w.flights[k].Rendering?
    requires w.document.value.approvedBasis == Some(Basis(w.document.value, w.facts))
    ensures Inv(RenderInto(w, w.flights[k]))
  {
    var d, read, files := w.document.value, w.flights[k].read, w.flights[k].files;
    assert read.content.Some? by {
      assert FlightHolds(w.flights[k]);
    }
    var event := RenderedAt(read.content.value, read.analysis, read.template, w.facts);
    RenderedWhatIsStamped(read, d, w.facts);
    RenderIsEarned(d, w.log, event, files);
    RenderedStamps(d, Basis(d, w.facts), files);
    RecordedKeeps(w, RenderStamped(d, Basis(d, w.facts), files), event);
  }

  lemma {:induction false} StepKeeps(w: World, step: Step)
    requires Inv(w) && (step.ChangeFacts? ==> Keyed(step.facts))
    ensures Inv(Apply(w, step))
  {
    match step {
      case EndCheck(k) =>
        if Lands(w, k) && w.flights[k].Checking? {
          CheckKeeps(w, k);
        }
      case EndApproval(k) =>
        if Lands(w, k) && w.flights[k].Approving? {
          ApproveKeeps(w, k);
        }
      case EndRender(k) =>
        if Lands(w, k) && w.flights[k].Rendering?
           && w.document.value.approvedBasis == Some(Basis(w.document.value, w.facts)) {
          RenderKeeps(w, k);
        }
      case _ =>
    }
  }

  lemma {:induction false} ReachableHolds(steps: seq<Step>)
    requires StepsKeyed(steps)
    ensures Inv(Execute(START, steps))
  {
    if steps != [] {
      ReachableHolds(steps[..|steps| - 1]);
      StepKeeps(Execute(START, steps[..|steps| - 1]), steps[|steps| - 1]);
    }
  }

  // ----- what each write leaves -----

  /** A command that begins with the document's hash carries off what it read, and the report it
      will bring; an approval only where no such approval stands and nothing needs review. */
  lemma {:induction false} CommandBegins(w: World, step: Step)
    requires w.document.Some? && w.document.value.content.Some?
    requires step.BeginCheck? || step.BeginApproval? || step.BeginRender?
    ensures var d := w.document.value;
            var basis := Some(Basis(d, w.facts));
            var current := step.expected == OfDocument(d.analysis, d.content, d.template);
            Apply(w, step) ==
              match step
              case BeginCheck(k, _, passed) =>
                if current then w.(flights := w.flights[k := Checking(d, w.facts, passed)]) else w
              case BeginApproval(k, _, passed) =>
                if current && !(d.approvedBasis == basis && d.checkedBasis == basis && d.passed.Some?)
                   && ReviewReasons(d.content, w.facts) == []
                then w.(flights := w.flights[k := Approving(d, w.facts, passed)]) else w
              case BeginRender(k, _, files) =>
                if current then w.(flights := w.flights[k := Rendering(d, files)]) else w
              case _ => w
  {
  }

  /** An approval that lands: nothing where the document is approved and checked at this basis;
      otherwise the report, and the approval too when it passed. */
  lemma {:induction false} ApprovalLands(w: World, flight: Flight)
    requires w.document.Some? && flight.Approving?
    ensures var d, basis := w.document.value, Basis(flight.read, flight.facts);
            Approve(w, flight).document == Some(
              if d.approvedBasis == Some(basis) && d.checkedBasis == Some(basis) && d.passed.Some? then d
              else d.(checkedBasis := Some(basis), passed := Some(flight.passed),
                      approvedBasis := if flight.passed then Some(basis) else d.approvedBasis))
  {
  }

  /** A write that carries the document's hash: a body under its analysis, never to no content;
      a template; a new analysis, which starts the document over. Any other changes nothing. */
  lemma {:induction false} WriteLands(w: World, step: Step)
    requires w.document.Some? && (step.UpdateBody? || step.SetTemplate? || step.Repin?)
    ensures var d := w.document.value;
            var current := step.expected == OfDocument(d.analysis, d.content, d.template);
            Apply(w, step) == w.(document := Some(
              match step
              case UpdateBody(_, analysis, content) =>
                if current && analysis == d.analysis && !(content.None? && d.content.Some?)
                then d.(content := content) else d
              case SetTemplate(_, template) => if current then d.(template := template) else d
              case Repin(_, analysis) =>
                if current && analysis != d.analysis
                then Document(analysis, None, d.template, None, None, None, None, None, None) else d
              case _ => d))
  {
  }

  // ----- what a state means -----

  predicate SameAs(event: Event, d: Document) {
    d.content == Some(event.content) && d.analysis == event.analysis
  }

  /** Approved, in any run: someone approved this very content on this very analysis, on a
      check that had just passed, while every fact it depends on said what it says now - and
      none of them needs review. */
  lemma {:induction false} ApprovedWasApproved(steps: seq<Step>) returns (i: nat)
    requires StepsKeyed(steps)
    requires var w := Execute(START, steps);
             w.document.Some? && ViewsOf(w.document, w.facts).state in {Approved, Ready}
    ensures var w := Execute(START, steps);
            var d := w.document.value;
            && i < |w.log| && w.log[i].ApprovedAt? && SameAs(w.log[i], d)
            && Agree(Dependents(d.content), w.log[i].facts, w.facts)
            && ReviewReasons(d.content, w.facts) == []
            && 0 < i && w.log[i - 1].CheckedAt? && w.log[i - 1].passed
            && SameAs(w.log[i - 1], d) && w.log[i - 1].facts == w.log[i].facts
  {
    ReachableHolds(steps);
    var w := Execute(START, steps);
    var d := w.document.value;
    i :| ApprovalAt(w.log, i, d.approvedBasis.value);
    assert OnPass(w.log, i);
    SameBasisSameEvent(w.log[i], d, w.facts);
    ReasonsFollowFacts(d.content, w.log[i].facts, w.facts);
  }

  lemma {:induction false} SameBasisSameEvent(event: Event, d: Document, facts: FactStore)
    requires Keyed(event.facts) && Keyed(facts) && BasisOfEvent(event) == Basis(d, facts)
    ensures SameAs(event, d) && Agree(Dependents(d.content), event.facts, facts)
  {
    BasisIsExact(NewDocument(event.analysis, Some(event.content), None), event.facts, d, facts);
  }

  /** Passed or failed, in any run: someone checked this very content on this very analysis,
      while every dependent fact said what it says now, with just that outcome. Unchecked or
      outdated otherwise, by whether there is a report at all. */
  lemma {:induction false} CheckedWasChecked(steps: seq<Step>)
    requires StepsKeyed(steps) && Execute(START, steps).document.Some?
    ensures var w := Execute(START, steps);
            var d := w.document.value;
            var check := CheckOf(w.document, Some(Basis(d, w.facts)));
            && (check.Passed? || check.Failed? ==> exists i ::
                  && 0 <= i < |w.log| && w.log[i].CheckedAt? && SameAs(w.log[i], d)
                  && Agree(Dependents(d.content), w.log[i].facts, w.facts) && w.log[i].passed == check.Passed?)
            && (check.NotChecked? <==> d.checkedBasis.None?)
            && (check.Outdated? <==> d.checkedBasis.Some? && d.checkedBasis.value != Basis(d, w.facts))
  {
    ReachableHolds(steps);
    var w := Execute(START, steps);
    var d := w.document.value;
    var check := CheckOf(w.document, Some(Basis(d, w.facts)));
    if check.Passed? || check.Failed? {
      var i :| CheckAt(w.log, i, d.checkedBasis.value, d.passed.value);
      SameBasisSameEvent(w.log[i], d, w.facts);
    }
  }

  /** Ready, in any run: that approval happened, and after it a render of the same content
      in the template the document has now. */
  lemma {:induction false} ReadyWasApprovedThenRendered(steps: seq<Step>) returns (i: nat, j: nat)
    requires StepsKeyed(steps)
    requires var w := Execute(START, steps); w.document.Some? && ViewsOf(w.document, w.facts).state.Ready?
    ensures var w := Execute(START, steps);
            var d := w.document.value;
            && i < j < |w.log|
            && w.log[i].ApprovedAt? && SameAs(w.log[i], d) && Agree(Dependents(d.content), w.log[i].facts, w.facts)
            && w.log[j].RenderedAt? && SameAs(w.log[j], d) && Agree(Dependents(d.content), w.log[j].facts, w.facts)
            && w.log[j].template == d.template
  {
    ReachableHolds(steps);
    var w := Execute(START, steps);
    var d := w.document.value;
    i, j :| RenderAfter(w.log, i, j, d.renderedBasis.value);
    SameBasisSameEvent(w.log[j], d, w.facts);
    SameBasisSameEvent(w.log[i], d, w.facts);
  }

  /** A document without content is never stamped, whatever is still in flight. */
  lemma {:induction false} EmptyDocumentIsUnstamped(steps: seq<Step>)
    requires StepsKeyed(steps)
    ensures var w := Execute(START, steps);
            w.document.Some? ==>
              && StampsHold(w.document.value)
              && (w.document.value.content.None? ==> ViewsOf(w.document, w.facts).state.InDraft?)
  {
    ReachableHolds(steps);
  }

  // ----- undoing -----

  predicate Stampless(step: Step) {
    step.ChangeFacts? || step.UpdateBody? || step.SetTemplate?
  }

  lemma {:induction false} EditsLeaveStamps(w: World, steps: seq<Step>)
    requires w.document.Some? && forall step :: step in steps ==> Stampless(step)
    ensures var v := Execute(w, steps);
            v.document.Some? && v.document.value == w.document.value.(
              content := v.document.value.content, template := v.document.value.template)
  {
    if steps != [] {
      EditsLeaveStamps(w, steps[..|steps| - 1]);
      assert Stampless(steps[|steps| - 1]);
    }
  }

  /** Undoing restores: whatever edits, template changes and fact changes come between, once
      content, template and dependent facts are again what they were, every reader sees what
      was seen before. */
  lemma {:induction false} UndoingRestores(w: World, steps: seq<Step>)
    requires w.document.Some? && Keyed(w.facts) && Keyed(Execute(w, steps).facts)
    requires forall step :: step in steps ==> Stampless(step)
    requires var v := Execute(w, steps);
             && v.document.Some? && HashOfDocument(v.document.value) == HashOfDocument(w.document.value)
             && Agree(Dependents(w.document.value.content), w.facts, v.facts)
    ensures ViewsOf(Execute(w, steps).document, Execute(w, steps).facts) == ViewsOf(w.document, w.facts)
  {
    var v := Execute(w, steps);
    EditsLeaveStamps(w, steps);
    assert v.document == w.document;
    OtherFactsMoveNothing(w.document, w.facts, v.facts);
  }
}
