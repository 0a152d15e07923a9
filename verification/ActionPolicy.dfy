/** Which actions an Application offers (application/state.py). */
module ActionPolicy {
  import opened Wrappers
  import opened Contracts
  import opened DocumentState
  import opened ActiveOperation
  import OperationRows
  import DocumentHistory

  datatype Action =
    | Analyze | EditMatchingConfiguration | AskGapQuestions | BuildFromAnalysis | ConfirmAndUseFact | CreateDraft
    | Edit | RegenerateSection | RegenerateClaim | CheckContent | Approve | Render | Submit | DownloadPdf

  const PREPARATION_ACTIONS: seq<Action> := [
    Analyze, EditMatchingConfiguration, AskGapQuestions, BuildFromAnalysis, ConfirmAndUseFact, CreateDraft,
    Edit, RegenerateSection, RegenerateClaim, CheckContent, Approve, Render, Submit, DownloadPdf]

  const CONTENT_ACTIONS := {Edit, RegenerateSection, RegenerateClaim}

  const DOCUMENT_MUTATING_ACTIONS := {
    BuildFromAnalysis, ConfirmAndUseFact, CreateDraft, Edit, RegenerateSection, RegenerateClaim,
    CheckContent, Approve, Render}

  datatype Code =
    | AnalysisInProgress | GapQuestionsInProgress | MatchingInProgress | DocumentOperationInProgress
    | JobTextChanged | Review(reason: Reason) | ValidationFailed

  datatype Analysis = Analysis(id: string, jobText: string, version: nat, gaps: bool)

  const DOCUMENT_OPERATION_TYPES := {
    OperationRows.CreateDraft, OperationRows.RegenerateSection, OperationRows.RegenerateClaim,
    OperationRows.RenderDocument}

  const MATCHING_CONTEXT_OPERATION_TYPES := {OperationRows.AnalyzeJob}

  /** Analyses and the Application's stored Operations come oldest first. */
  datatype Context = Context(
    deleted: bool,
    jobText: string,
    analyses: seq<Analysis>,
    document: Option<Document>,
    facts: FactStore,
    operations: seq<OperationRows.Row>)

  // ----- what the rules look at -----

  function BasisNow(c: Context): Option<Digest> {
    if c.document.Some? then Some(Basis(c.document.value, c.facts)) else None
  }

  function PreparationNow(c: Context): Preparation { PreparationOf(c.document, BasisNow(c)) }

  function CheckNow(c: Context): Check { CheckOf(c.document, BasisNow(c)) }

  function ReviewNow(c: Context): seq<Reason> {
    if c.document.Some? then ReviewReasons(c.document.value.content, c.facts) else []
  }

  predicate HasContent(c: Context) {
    c.document.Some? && c.document.value.content.Some?
  }

  predicate JobTextAnalysed(c: Context) {
    exists k :: 0 <= k < |c.analyses| && c.analyses[k].jobText == c.jobText
  }

  function JobTextOf(analyses: seq<Analysis>, id: string): Option<string> {
    if analyses == [] then None
    else if analyses[0].id == id then Some(analyses[0].jobText)
    else JobTextOf(analyses[1..], id)
  }

  function VersionOf(analyses: seq<Analysis>, id: string): nat {
    if analyses == [] then 0
    else if analyses[|analyses| - 1].id == id then analyses[|analyses| - 1].version
    else VersionOf(analyses[..|analyses| - 1], id)
  }

  predicate NewerAnalysis(c: Context) {
    && c.document.Some? && c.analyses != []
    && c.analyses[|c.analyses| - 1].id != c.document.value.analysis
    && VersionOf(c.analyses, c.analyses[|c.analyses| - 1].id) > VersionOf(c.analyses, c.document.value.analysis)
  }

  /** What live work the rules see: the one Operation the projection shows, and for matching
      a query of its own over every live one. */
  datatype LiveWork = LiveWork(analyzing: bool, asking: bool, matching: bool, onDocument: bool)

  function LiveWorkOf(c: Context): LiveWork {
    LiveWork(
      ActiveIs(c.operations, {OperationRows.AnalyzeJob}),
      ActiveIs(c.operations, {OperationRows.AskGapQuestions}),
      AnyLive(c.operations, MATCHING_CONTEXT_OPERATION_TYPES),
      ActiveIs(c.operations, DOCUMENT_OPERATION_TYPES))
  }

  // ----- the policy, action by action -----

  /** What the stage allows. */
  predicate Allowed(c: Context, action: Action) {
    !c.deleted &&
    match action
    case Analyze => !JobTextAnalysed(c)
    case EditMatchingConfiguration => c.analyses != []
    case AskGapQuestions => c.analyses != [] && c.analyses[|c.analyses| - 1].gaps
    case BuildFromAnalysis => NewerAnalysis(c)
    case ConfirmAndUseFact => PendingFactReason in ReviewNow(c)
    case CreateDraft => c.document.Some? && !HasContent(c)
    case Edit => HasContent(c)
    case RegenerateSection => HasContent(c)
    case RegenerateClaim => HasContent(c)
    case CheckContent => HasContent(c) && !CheckNow(c).Passed?
    case Approve => HasContent(c) && PreparationNow(c).DraftInProgress?
    case Render => PreparationNow(c).ApprovedToRender?
    case Submit => PreparationNow(c).ReadyToSend?
    case DownloadPdf => PreparationNow(c).ReadyToSend?
  }

  function Codes(reasons: seq<Reason>): seq<Code> {
    if reasons == [] then [] else [Review(reasons[0])] + Codes(reasons[1..])
  }

  function When(condition: bool, code: Code): seq<Code> {
    if condition then [code] else []
  }

  function ReviewCodes(reasons: seq<Reason>, blocks: bool): seq<Code> {
    if blocks then Codes(reasons) else []
  }

  /** What live work withholds: at most one code an action. */
  function LiveCodes(work: LiveWork, allowed: bool, action: Action): seq<Code> {
    When(
      allowed &&
      match action
      case Analyze => work.analyzing
      case AskGapQuestions => work.asking
      case EditMatchingConfiguration => work.matching
      case _ => action in DOCUMENT_MUTATING_ACTIONS && work.onDocument,
      match action
      case Analyze => AnalysisInProgress
      case AskGapQuestions => GapQuestionsInProgress
      case EditMatchingConfiguration => MatchingInProgress
      case _ => DocumentOperationInProgress)
  }

  /** Why an allowed action is withheld: live work, then what the document itself lacks. */
  function Blockers(c: Context, action: Action): seq<Code> {
    var allowed := Allowed(c, action);
    LiveCodes(LiveWorkOf(c), allowed, action)
    + When(JobTextChangedSince(c) && allowed && action in {CreateDraft}, JobTextChanged)
    + ReviewCodes(ReviewNow(c), allowed && action in REVIEWED_ACTIONS)
    + When(CheckNow(c).Failed? && allowed && action in {Approve}, ValidationFailed)
  }

  // ----- the rules as they run -----

  /** What `blockers` says of one action. */
  function Held(blockers: map<Action, seq<Code>>, action: Action): seq<Code> {
    if action in blockers then blockers[action] else []
  }

  /** No action is listed without a reason. */
  ghost predicate NoneEmpty(blockers: map<Action, seq<Code>>) {
    forall a :: a in blockers ==> blockers[a] != []
  }

  /** `block`: one more code for each of these actions the stage allows. */
  method Block(allowed: set<Action>, blockers: map<Action, seq<Code>>, actions: set<Action>, code: Code)
    returns (after: map<Action, seq<Code>>)
    requires NoneEmpty(blockers)
    ensures NoneEmpty(after)
    ensures forall a :: Held(after, a) == Held(blockers, a) + When(a in allowed && a in actions, code)
  {
    after := blockers;
    var todo := actions;
    while todo != {}
      invariant todo <= actions && NoneEmpty(after)
      invariant forall a :: Held(after, a) == Held(blockers, a) + When(a in allowed && a in actions && a !in todo, code)
      decreases todo
    {
      var action :| action in todo;
      todo := todo - {action};
      if action in allowed {
        after := after[action := Held(after, action) + [code]];
      }
    }
  }

  method BlockIf(
      condition: bool, allowed: set<Action>, blockers: map<Action, seq<Code>>, actions: set<Action>, code: Code)
    returns (after: map<Action, seq<Code>>)
    requires NoneEmpty(blockers)
    ensures NoneEmpty(after)
    ensures forall a :: Held(after, a) == Held(blockers, a) + When(condition && a in allowed && a in actions, code)
  {
    if condition {
      after := Block(allowed, blockers, actions, code);
    } else {
      after := blockers;
    }
  }

  method ReasonActions(reasons: seq<Reason>, hasContent: bool) returns (actions: set<Action>)
    ensures ConfirmAndUseFact in actions <==> PendingFactReason in reasons
    ensures forall a :: a in actions && a != ConfirmAndUseFact ==> hasContent && a in CONTENT_ACTIONS
  {
    actions := {};
    for k := 0 to |reasons|
      invariant ConfirmAndUseFact in actions <==> PendingFactReason in reasons[..k]
      invariant forall a :: a in actions && a != ConfirmAndUseFact ==> hasContent && a in CONTENT_ACTIONS
    {
      assert reasons[..k + 1] == reasons[..k] + [reasons[k]];
      match reasons[k] {
        case PendingFactReason => actions := actions + {ConfirmAndUseFact} + (if hasContent then {Edit} else {});
        case DeletedFactReason => actions := actions +
          (if hasContent then {Edit, RegenerateSection, RegenerateClaim} else {});
      }
    }
    assert reasons[..|reasons|] == reasons;
  }

  method IsJobTextAnalysed(c: Context) returns (analysed: bool)
    ensures analysed <==> JobTextAnalysed(c)
  {
    analysed := false;
    for k := 0 to |c.analyses|
      invariant analysed <==> exists j :: 0 <= j < k && c.analyses[j].jobText == c.jobText
    {
      if c.analyses[k].jobText == c.jobText {
        analysed := true;
      }
    }
  }

  /** Whether the newest analysis is of a later version than the document's. */
  method HasNewerAnalysis(c: Context) returns (newer: bool)
    ensures newer <==> NewerAnalysis(c)
  {
    if c.document.None? || c.analyses == [] || c.analyses[|c.analyses| - 1].id == c.document.value.analysis {
      return false;
    }
    var versions: map<string, nat> := map[];
    for k := 0 to |c.analyses|
      invariant forall id :: VersionIn(versions, id) == VersionOf(c.analyses[..k], id)
    {
      assert c.analyses[..k + 1][..k] == c.analyses[..k];
      versions := versions[c.analyses[k].id := c.analyses[k].version];
    }
    assert c.analyses[..|c.analyses|] == c.analyses;
    newer := VersionIn(versions, c.analyses[|c.analyses| - 1].id) > VersionIn(versions, c.document.value.analysis);
  }

  function VersionIn(versions: map<string, nat>, id: string): nat {
    if id in versions then versions[id] else 0
  }

  /** `_analysis_job_text`: the first analysis of that identity. */
  method AnalysisJobText(analyses: seq<Analysis>, id: string) returns (text: Option<string>)
    ensures text == JobTextOf(analyses, id)
  {
    for k := 0 to |analyses|
      invariant JobTextOf(analyses, id) == JobTextOf(analyses[k..], id)
    {
      assert analyses[k..][1..] == analyses[k + 1..];
      if analyses[k].id == id {
        return Some(analyses[k].jobText);
      }
    }
    text := None;
  }

  method IsJobTextChanged(c: Context) returns (changed: bool)
    ensures changed <==> JobTextChangedSince(c)
  {
    if c.document.None? {
      return false;
    }
    var text := AnalysisJobText(c.analyses, c.document.value.analysis);
    changed := text != Some(c.jobText);
  }

  method AllowedActions(c: Context) returns (allowed: set<Action>)
    requires !c.deleted
    ensures forall a :: a in allowed <==> Allowed(c, a)
  {
    allowed := {};
    var analysed := IsJobTextAnalysed(c);
    if !analysed {
      allowed := allowed + {Analyze};
    }
    if c.analyses != [] {
      allowed := allowed + {EditMatchingConfiguration};
      if c.analyses[|c.analyses| - 1].gaps {
        allowed := allowed + {AskGapQuestions};
      }
    }
    if c.document.Some? {
      var more := DocumentActions(c);
      allowed := allowed + more;
    }
  }

  predicate OnDocument(action: Action) {
    !action.Analyze? && !action.EditMatchingConfiguration? && !action.AskGapQuestions?
  }

  method DocumentActions(c: Context) returns (allowed: set<Action>)
    requires !c.deleted && c.document.Some?
    ensures forall a :: a in allowed <==> OnDocument(a) && Allowed(c, a)
  {
    var newer := HasNewerAnalysis(c);
    var stage := StageActions(HasContent(c), newer, PreparationNow(c), CheckNow(c));
    var resolving := ReasonActions(ReviewNow(c), HasContent(c));
    allowed := stage + resolving;
    forall a
      ensures a in allowed <==> OnDocument(a) && Allowed(c, a)
    {
      StageIs(c, a);
      assert a in allowed <==> a in stage || a in resolving;
    }
  }

  function StageSet(hasContent: bool, newer: bool, preparation: Preparation, check: Check): set<Action> {
    (if newer then {BuildFromAnalysis} else {})
    + (if hasContent then CONTENT_ACTIONS else {CreateDraft})
    + (if hasContent && !check.Passed? then {CheckContent} else {})
    + (if hasContent && preparation.DraftInProgress? then {Approve} else {})
    + (if preparation.ApprovedToRender? then {Render} else {})
    + (if preparation.ReadyToSend? then {Submit, DownloadPdf} else {})
  }

  /** The stage set, action by action. */
  predicate InStage(hasContent: bool, newer: bool, preparation: Preparation, check: Check, a: Action) {
    match a
    case BuildFromAnalysis => newer
    case CreateDraft => !hasContent
    case Edit => hasContent
    case RegenerateSection => hasContent
    case RegenerateClaim => hasContent
    case CheckContent => hasContent && !check.Passed?
    case Approve => hasContent && preparation.DraftInProgress?
    case Render => preparation.ApprovedToRender?
    case Submit => preparation.ReadyToSend?
    case DownloadPdf => preparation.ReadyToSend?
    case _ => false
  }

  lemma {:induction false} StageSetIs(hasContent: bool, newer: bool, preparation: Preparation, check: Check, a: Action)
    ensures a in StageSet(hasContent, newer, preparation, check) <==> InStage(hasContent, newer, preparation, check, a)
  {
  }

  lemma {:induction false} StageIs(c: Context, a: Action)
    requires !c.deleted && c.document.Some?
    ensures a in StageSet(HasContent(c), NewerAnalysis(c), PreparationNow(c), CheckNow(c)) || a.ConfirmAndUseFact?
      <==> a.ConfirmAndUseFact? || (OnDocument(a) && Allowed(c, a))
    ensures ConfirmAndUseFact !in StageSet(HasContent(c), NewerAnalysis(c), PreparationNow(c), CheckNow(c))
  {
    StageSetIs(HasContent(c), NewerAnalysis(c), PreparationNow(c), CheckNow(c), a);
    StageSetIs(HasContent(c), NewerAnalysis(c), PreparationNow(c), CheckNow(c), ConfirmAndUseFact);
  }

  method StageActions(hasContent: bool, newer: bool, preparation: Preparation, check: Check)
    returns (allowed: set<Action>)
    ensures allowed == StageSet(hasContent, newer, preparation, check)
  {
    allowed := {};
    if newer {
      allowed := allowed + {BuildFromAnalysis};
    }
    if !hasContent {
      allowed := allowed + {CreateDraft};
    } else {
      allowed := allowed + CONTENT_ACTIONS;
      if !check.Passed? {
        allowed := allowed + {CheckContent};
      }
      if preparation.DraftInProgress? {
        allowed := allowed + {Approve};
      }
    }
    if preparation.ApprovedToRender? {
      allowed := allowed + {Render};
    }
    if preparation.ReadyToSend? {
      allowed := allowed + {Submit, DownloadPdf};
    }
  }

  /** The four rules about live work concern different actions. */
  lemma {:induction false} LiveRulesAreApart(work: LiveWork, allowed: bool, a: Action)
    ensures
      When(work.analyzing && allowed && a in {Analyze}, AnalysisInProgress)
      + When(work.asking && allowed && a in {AskGapQuestions}, GapQuestionsInProgress)
      + When(work.matching && allowed && a in {EditMatchingConfiguration}, MatchingInProgress)
      + When(work.onDocument && allowed && a in DOCUMENT_MUTATING_ACTIONS, DocumentOperationInProgress)
      == LiveCodes(work, allowed, a)
  {
  }

  method LiveBlockers(work: LiveWork, allowed: set<Action>) returns (blockers: map<Action, seq<Code>>)
    ensures forall a :: Held(blockers, a) == LiveCodes(work, a in allowed, a)
    ensures NoneEmpty(blockers)
  {
    var none: map<Action, seq<Code>> := map[];
    var b0 := BlockIf(work.analyzing, allowed, none, {Analyze}, AnalysisInProgress);
    var b1 := BlockIf(work.asking, allowed, b0, {AskGapQuestions}, GapQuestionsInProgress);
    var b2 := BlockIf(work.matching, allowed, b1, {EditMatchingConfiguration}, MatchingInProgress);
    blockers := BlockIf(work.onDocument, allowed, b2, DOCUMENT_MUTATING_ACTIONS, DocumentOperationInProgress);
    forall a
      ensures Held(blockers, a) == LiveCodes(work, a in allowed, a)
    {
      var may := a in allowed;
      LiveRulesAreApart(work, may, a);
      FirstCodes(Held(none, a), When(work.analyzing && may && a in {Analyze}, AnalysisInProgress));
      assert Held(b0, a) == Held(none, a) + When(work.analyzing && may && a in {Analyze}, AnalysisInProgress);
      assert Held(b1, a) == Held(b0, a) + When(work.asking && may && a in {AskGapQuestions}, GapQuestionsInProgress);
      assert Held(b2, a) ==
        Held(b1, a) + When(work.matching && may && a in {EditMatchingConfiguration}, MatchingInProgress);
    }
  }

  lemma {:induction false} FirstCodes(none: seq<Code>, first: seq<Code>)
    requires none == []
    ensures none + first == first
  {
  }

  predicate JobTextChangedSince(c: Context) {
    c.document.Some? && JobTextOf(c.analyses, c.document.value.analysis) != Some(c.jobText)
  }

  method AllBlockers(c: Context, allowed: set<Action>) returns (blockers: map<Action, seq<Code>>)
    requires forall a :: a in allowed <==> Allowed(c, a)
    ensures forall a :: Held(blockers, a) == Blockers(c, a)
    ensures NoneEmpty(blockers)
  {
    var live := LiveBlockers(LiveWorkOf(c), allowed);
    var changed := IsJobTextChanged(c);
    var job := BlockIf(changed, allowed, live, {CreateDraft}, JobTextChanged);
    var reviewed := BlockReview(allowed, job, ReviewNow(c));
    var failed := CheckNow(c).Failed?;
    blockers := BlockIf(failed, allowed, reviewed, {Approve}, ValidationFailed);
    forall a
      ensures Held(blockers, a) == Blockers(c, a)
    {
      BlockersTogether(
        c, a, a in allowed, changed, failed, Held(live, a), Held(job, a), Held(reviewed, a), Held(blockers, a));
    }
  }

  /** An action's blockers, rule after rule. */
  lemma {:induction false} BlockersTogether(
      c: Context, a: Action, may: bool, changed: bool, failed: bool, live: seq<Code>, job: seq<Code>,
      reviewed: seq<Code>, all: seq<Code>)
    requires may == Allowed(c, a) && changed == JobTextChangedSince(c) && failed == CheckNow(c).Failed?
    requires live == LiveCodes(LiveWorkOf(c), may, a)
    requires job == live + When(changed && may && a in {CreateDraft}, JobTextChanged)
    requires reviewed == job + ReviewCodes(ReviewNow(c), may && a in REVIEWED_ACTIONS)
    requires all == reviewed + When(failed && may && a in {Approve}, ValidationFailed)
    ensures all == Blockers(c, a)
  {
  }

  const REVIEWED_ACTIONS := {Approve, Render, Submit}

  /** Each reviewed action is further withheld by exactly these reasons. */
  ghost predicate Reviewed(
      before: map<Action, seq<Code>>, after: map<Action, seq<Code>>, allowed: set<Action>, reasons: seq<Reason>)
  {
    forall a :: Held(after, a) == Held(before, a) + ReviewCodes(reasons, a in allowed && a in REVIEWED_ACTIONS)
  }

  lemma {:induction false} ReviewedNot(blockers: map<Action, seq<Code>>, allowed: set<Action>)
    ensures Reviewed(blockers, blockers, allowed, [])
  {
  }

  lemma {:induction false} ReviewedOnce(
      before: map<Action, seq<Code>>, was: map<Action, seq<Code>>, after: map<Action, seq<Code>>, allowed: set<Action>,
      reasons: seq<Reason>, reason: Reason)
    requires Reviewed(before, was, allowed, reasons)
    requires forall a :: Held(after, a) == Held(was, a) + When(a in allowed && a in REVIEWED_ACTIONS, Review(reason))
    ensures Reviewed(before, after, allowed, reasons + [reason])
  {
    forall a
      ensures Held(after, a) ==
        Held(before, a) + ReviewCodes(reasons + [reason], a in allowed && a in REVIEWED_ACTIONS)
    {
      OneMoreReview(Held(before, a), reasons, reason, a in allowed && a in REVIEWED_ACTIONS);
      assert Held(was, a) == Held(before, a) + ReviewCodes(reasons, a in allowed && a in REVIEWED_ACTIONS);
    }
  }

  method BlockReview(allowed: set<Action>, blockers: map<Action, seq<Code>>, review: seq<Reason>)
    returns (after: map<Action, seq<Code>>)
    requires NoneEmpty(blockers)
    ensures Reviewed(blockers, after, allowed, review) && NoneEmpty(after)
  {
    after := blockers;
    ReviewedNot(blockers, allowed);
    for k := 0 to |review|
      invariant Reviewed(blockers, after, allowed, review[..k]) && NoneEmpty(after)
    {
      ghost var was := after;
      after := Block(allowed, after, REVIEWED_ACTIONS, Review(review[k]));
      ReviewedOnce(blockers, was, after, allowed, review[..k], review[k]);
      assert review[..k + 1] == review[..k] + [review[k]];
    }
    assert review[..|review|] == review;
  }

  lemma {:induction false} OneMoreReview(held: seq<Code>, reasons: seq<Reason>, reason: Reason, blocks: bool)
    ensures held + ReviewCodes(reasons, blocks) + When(blocks, Review(reason)) ==
      held + ReviewCodes(reasons + [reason], blocks)
  {
    CodesGrow(reasons, reason);
  }

  lemma {:induction false} CodesGrow(reasons: seq<Reason>, reason: Reason)
    ensures Codes(reasons + [reason]) == Codes(reasons) + [Review(reason)]
  {
    if reasons != [] {
      CodesGrow(reasons[1..], reason);
      assert (reasons + [reason])[1..] == reasons[1..] + [reason];
    }
  }

  // ----- the offer -----

  datatype Offer = Offer(available: seq<Action>, blocked: seq<(Action, seq<Code>)>, recommended: Option<Action>)

  function AvailableIn(c: Context, order: seq<Action>): seq<Action> {
    if order == [] then []
    else if Allowed(c, order[0]) && Blockers(c, order[0]) == [] then [order[0]] + AvailableIn(c, order[1..])
    else AvailableIn(c, order[1..])
  }

  function BlockedIn(c: Context, order: seq<Action>): seq<(Action, seq<Code>)> {
    if order == [] then []
    else if Blockers(c, order[0]) != [] then [(order[0], Blockers(c, order[0]))] + BlockedIn(c, order[1..])
    else BlockedIn(c, order[1..])
  }

  function FirstOf(candidates: seq<Action>, available: seq<Action>): Option<Action> {
    if candidates == [] then None
    else if candidates[0] in available then Some(candidates[0])
    else FirstOf(candidates[1..], available)
  }

  /** The step the stage calls for, if nothing withheld it. */
  function NextStep(c: Context, available: seq<Action>): Option<Action> {
    if c.document.None? then Some(Analyze)
    else if !HasContent(c) then Some(if JobTextAnalysed(c) then CreateDraft else Analyze)
    else if CheckNow(c).NotChecked? || CheckNow(c).Outdated? then Some(CheckContent)
    else FirstOf([Approve, Render, Submit], available)
  }

  function IfOffered(next: Option<Action>, available: seq<Action>): Option<Action> {
    if next.Some? && next.value in available then next else None
  }

  function Recommended(c: Context): Option<Action> {
    var available := AvailableIn(c, PREPARATION_ACTIONS);
    if c.deleted then None else IfOffered(NextStep(c, available), available)
  }

  lemma {:induction false} EveryActionIsListed(a: Action)
    ensures a in PREPARATION_ACTIONS
  {
    var order := PREPARATION_ACTIONS;
    assert a == order[0] || a == order[1] || a == order[2] || a == order[3] || a == order[4] || a == order[5]
        || a == order[6] || a == order[7] || a == order[8] || a == order[9] || a == order[10] || a == order[11]
        || a == order[12] || a == order[13];
  }

  lemma {:induction false} InOrder(c: Context, order: seq<Action>, a: Action)
    ensures a in AvailableIn(c, order) <==> a in order && Allowed(c, a) && Blockers(c, a) == []
    ensures forall codes :: (a, codes) in BlockedIn(c, order) <==> a in order && codes == Blockers(c, a) && codes != []
  {
    if order != [] {
      InOrder(c, order[1..], a);
      assert order == [order[0]] + order[1..];
    }
  }

  /** `derive_actions`. */
  method DeriveActions(c: Context) returns (offer: Offer)
    ensures offer.available == AvailableIn(c, PREPARATION_ACTIONS)
    ensures offer.blocked == BlockedIn(c, PREPARATION_ACTIONS)
    ensures forall a :: a in offer.available <==> Allowed(c, a) && Blockers(c, a) == []
    ensures forall a, codes :: (a, codes) in offer.blocked <==> codes == Blockers(c, a) && codes != []
    ensures offer.recommended.Some? ==> offer.recommended.value in offer.available
    ensures offer.recommended == Recommended(c)
  {
    if c.deleted {
      NothingWhenDeleted(c, PREPARATION_ACTIONS);
      return Offer([], [], None);
    }
    var allowed := AllowedActions(c);
    var blockers := AllBlockers(c, allowed);
    var available: seq<Action> := [];
    var blocked: seq<(Action, seq<Code>)> := [];
    var k := |PREPARATION_ACTIONS|;
    while k > 0
      invariant 0 <= k <= |PREPARATION_ACTIONS|
      invariant available == AvailableIn(c, PREPARATION_ACTIONS[k..])
      invariant blocked == BlockedIn(c, PREPARATION_ACTIONS[k..])
    {
      k := k - 1;
      var action := PREPARATION_ACTIONS[k];
      assert PREPARATION_ACTIONS[k..] == [action] + PREPARATION_ACTIONS[k + 1..];
      assert Held(blockers, action) == Blockers(c, action);
      if action in allowed && action !in blockers {
        available := [action] + available;
      }
      if action in blockers {
        blocked := [(action, blockers[action])] + blocked;
      }
    }
    assert PREPARATION_ACTIONS[0..] == PREPARATION_ACTIONS;
    OfferIsExact(c);
    offer := Offer(available, blocked, IfOffered(NextStep(c, available), available));
  }

  lemma {:induction false} NothingWhenDeleted(c: Context, order: seq<Action>)
    requires c.deleted
    ensures AvailableIn(c, order) == [] && BlockedIn(c, order) == []
    ensures forall a :: !Allowed(c, a) && Blockers(c, a) == []
  {
    if order != [] {
      NothingWhenDeleted(c, order[1..]);
    }
  }

  lemma {:induction false} OfferIsExact(c: Context)
    ensures forall a :: a in AvailableIn(c, PREPARATION_ACTIONS) <==> Allowed(c, a) && Blockers(c, a) == []
    ensures forall a, codes :: (a, codes) in BlockedIn(c, PREPARATION_ACTIONS) <==>
      codes == Blockers(c, a) && codes != []
  {
    forall a
      ensures a in AvailableIn(c, PREPARATION_ACTIONS) <==> Allowed(c, a) && Blockers(c, a) == []
      ensures forall codes :: (a, codes) in BlockedIn(c, PREPARATION_ACTIONS) <==>
        codes == Blockers(c, a) && codes != []
    {
      EveryActionIsListed(a);
      InOrder(c, PREPARATION_ACTIONS, a);
    }
  }

  // ----- what the policy guarantees -----

  predicate OnDocumentNow(c: Context) {
    ActiveIs(c.operations, DOCUMENT_OPERATION_TYPES)
  }

  /** An existing, live document with content whose check report is current. */
  predicate Settled(c: Context) {
    !c.deleted && HasContent(c) && (CheckNow(c).Passed? || CheckNow(c).Failed?)
  }

  predicate MayTake(c: Context, a: Action) {
    && Allowed(c, a)
    && LiveCodes(LiveWorkOf(c), true, a) == []
    && !(JobTextChangedSince(c) && a.CreateDraft?)
    && !(a in REVIEWED_ACTIONS && ReviewNow(c) != [])
    && !(CheckNow(c).Failed? && a.Approve?)
  }

  /** Where a step may be taken. */
  predicate StandsFor(c: Context, a: Action) {
    match a
    case Analyze => !c.deleted && !JobTextAnalysed(c) && !LiveWorkOf(c).analyzing
    case CreateDraft =>
      !c.deleted && c.document.Some? && !HasContent(c) && !JobTextChangedSince(c) && !OnDocumentNow(c)
    case CheckContent => !c.deleted && HasContent(c) && !CheckNow(c).Passed? && !OnDocumentNow(c)
    case Approve =>
      !c.deleted && HasContent(c) && !CheckNow(c).Failed? && StateOf(c.document, BasisNow(c)).InDraft?
      && ReviewNow(c) == [] && !OnDocumentNow(c)
    case Render =>
      !c.deleted && HasContent(c) && StateOf(c.document, BasisNow(c)).Approved? && ReviewNow(c) == []
      && !OnDocumentNow(c)
    case Submit =>
      !c.deleted && HasContent(c) && StateOf(c.document, BasisNow(c)).Ready? && ReviewNow(c) == []
    case _ => MayTake(c, a)
  }

  lemma {:induction false} StandsExactly(c: Context, a: Action)
    ensures MayTake(c, a) <==> StandsFor(c, a)
  {
  }

  lemma {:induction false} StepAvailable(c: Context, a: Action)
    ensures a in AvailableIn(c, PREPARATION_ACTIONS) <==> StandsFor(c, a)
  {
    AvailableExactly(c, a);
    NothingWithholds(c, a);
    StandsExactly(c, a);
  }

  lemma {:induction false} NextSteps(c: Context)
    ensures var available := AvailableIn(c, PREPARATION_ACTIONS);
      NextStep(c, available) ==
        if !HasContent(c) then Some(if c.document.Some? && JobTextAnalysed(c) then CreateDraft else Analyze)
        else if !CheckNow(c).Passed? && !CheckNow(c).Failed? then Some(CheckContent)
        else if Approve in available then Some(Approve)
        else if Render in available then Some(Render)
        else if Submit in available then Some(Submit)
        else None
  {
    var available := AvailableIn(c, PREPARATION_ACTIONS);
    assert FirstOf([Approve, Render, Submit], available) ==
      if Approve in available then Some(Approve)
      else if Render in available then Some(Render)
      else if Submit in available then Some(Submit)
      else None by {
      FirstOfThree(Approve, Render, Submit, available);
    }
  }

  predicate Recommends(c: Context, a: Action) {
    match a
    case Analyze => !c.deleted && !HasContent(c) && !JobTextAnalysed(c) && !LiveWorkOf(c).analyzing
    case CreateDraft =>
      !c.deleted && c.document.Some? && !HasContent(c) && JobTextAnalysed(c) && !JobTextChangedSince(c)
      && !OnDocumentNow(c)
    case CheckContent => !c.deleted && HasContent(c) && !Settled(c) && !OnDocumentNow(c)
    case Approve =>
      Settled(c) && CheckNow(c).Passed? && StateOf(c.document, BasisNow(c)).InDraft? && ReviewNow(c) == []
      && !OnDocumentNow(c)
    case Render =>
      Settled(c) && StateOf(c.document, BasisNow(c)).Approved? && ReviewNow(c) == [] && !OnDocumentNow(c)
    case Submit => Settled(c) && StateOf(c.document, BasisNow(c)).Ready? && ReviewNow(c) == []
    case _ => false
  }

  /** The recommendation walks the preparation: analyse, draft, check, approve, render, submit -
      each exactly when the document stands there and nothing withholds the step. */
  lemma {:induction false} RecommendationExactly(c: Context, a: Action)
    ensures Recommended(c) == Some(a) <==> Recommends(c, a)
  {
    NextSteps(c);
    StepAvailable(c, Analyze);
    StepAvailable(c, CreateDraft);
    StepAvailable(c, CheckContent);
    StepAvailable(c, Approve);
    StepAvailable(c, Render);
    StepAvailable(c, Submit);
    StepAfter(c, AvailableIn(c, PREPARATION_ACTIONS), a);
  }

  /** Of the steps that are available, the one the stage calls for. */
  lemma {:induction false} StepAfter(c: Context, available: seq<Action>, a: Action)
    requires available == AvailableIn(c, PREPARATION_ACTIONS)
    requires Analyze in available <==> StandsFor(c, Analyze)
    requires CreateDraft in available <==> StandsFor(c, CreateDraft)
    requires CheckContent in available <==> StandsFor(c, CheckContent)
    requires Approve in available <==> StandsFor(c, Approve)
    requires Render in available <==> StandsFor(c, Render)
    requires Submit in available <==> StandsFor(c, Submit)
    requires NextStep(c, available) ==
      if !HasContent(c) then Some(if c.document.Some? && JobTextAnalysed(c) then CreateDraft else Analyze)
      else if !CheckNow(c).Passed? && !CheckNow(c).Failed? then Some(CheckContent)
      else if Approve in available then Some(Approve)
      else if Render in available then Some(Render)
      else if Submit in available then Some(Submit)
      else None
    ensures Recommended(c) == Some(a) <==> Recommends(c, a)
  {
    var next := NextStep(c, available);
    assert Recommended(c) == if c.deleted then None else IfOffered(next, available);
    if HasContent(c) {
      StepWithContent(
        c, a, next, Approve in available, Render in available, Submit in available, CheckContent in available);
    } else {
      StepWithoutContent(c, a, next, Analyze in available, CreateDraft in available);
    }
  }

  lemma {:induction false} StepWithoutContent(c: Context, a: Action, next: Option<Action>, analyze: bool, draft: bool)
    requires !HasContent(c) && analyze == StandsFor(c, Analyze) && draft == StandsFor(c, CreateDraft)
    requires next == Some(if c.document.Some? && JobTextAnalysed(c) then CreateDraft else Analyze)
    ensures Recommends(c, a) <==>
      !c.deleted && next == Some(a) && if next == Some(Analyze) then analyze else draft
  {
  }

  lemma {:induction false} StepWithContent(
      c: Context, a: Action, next: Option<Action>, approve: bool, render: bool, submit: bool, check: bool)
    requires HasContent(c) && approve == StandsFor(c, Approve) && render == StandsFor(c, Render)
    requires submit == StandsFor(c, Submit) && check == StandsFor(c, CheckContent)
    requires next ==
      if !CheckNow(c).Passed? && !CheckNow(c).Failed? then Some(CheckContent)
      else if approve then Some(Approve)
      else if render then Some(Render)
      else if submit then Some(Submit)
      else None
    ensures Recommends(c, a) <==> !c.deleted && next == Some(a) && (a.CheckContent? ==> check)
  {
  }

  lemma {:induction false} FirstOfThree(a: Action, b: Action, c: Action, available: seq<Action>)
    ensures FirstOf([a, b, c], available) ==
      if a in available then Some(a) else if b in available then Some(b) else if c in available then Some(c) else None
  {
    assert [a, b, c][1..] == [b, c] && [b, c][1..] == [c] && [c][1..] == [];
    assert FirstOf([c], available) == if c in available then Some(c) else FirstOf([], available);
    assert FirstOf([b, c], available) == if b in available then Some(b) else FirstOf([c], available);
  }

  /** Available and blocked split the allowed actions between them. */
  lemma {:induction false} OffersPartitionAllowed(c: Context, a: Action)
    ensures Allowed(c, a) <==>
      a in AvailableIn(c, PREPARATION_ACTIONS) || exists codes :: (a, codes) in BlockedIn(c, PREPARATION_ACTIONS)
    ensures a in AvailableIn(c, PREPARATION_ACTIONS) ==>
      forall codes :: (a, codes) !in BlockedIn(c, PREPARATION_ACTIONS)
  {
    OfferIsExact(c);
    if Allowed(c, a) && Blockers(c, a) != [] {
      assert (a, Blockers(c, a)) in BlockedIn(c, PREPARATION_ACTIONS);
    }
  }

  lemma {:induction false} AvailableExactly(c: Context, a: Action)
    ensures a in AvailableIn(c, PREPARATION_ACTIONS) <==> Allowed(c, a) && Blockers(c, a) == []
  {
    EveryActionIsListed(a);
    InOrder(c, PREPARATION_ACTIONS, a);
  }

  lemma {:induction false} NothingWithholds(c: Context, a: Action)
    ensures Blockers(c, a) == [] <==>
      && LiveCodes(LiveWorkOf(c), Allowed(c, a), a) == []
      && !(JobTextChangedSince(c) && Allowed(c, a) && a.CreateDraft?)
      && !(Allowed(c, a) && a in REVIEWED_ACTIONS && ReviewNow(c) != [])
      && !(CheckNow(c).Failed? && Allowed(c, a) && a.Approve?)
  {
    CodesOfNone(ReviewNow(c));
  }

  lemma {:induction false} CodesAreReviews(reasons: seq<Reason>, code: Code)
    ensures code in Codes(reasons) ==> code.Review?
  {
    if reasons != [] {
      CodesAreReviews(reasons[1..], code);
    }
  }

  /** A code of live work is among an action's blockers exactly when its own rule put it there. */
  lemma {:induction false} LiveCodeIsFirst(c: Context, a: Action, code: Code)
    requires code in {AnalysisInProgress, GapQuestionsInProgress, MatchingInProgress, DocumentOperationInProgress}
    ensures code in Blockers(c, a) <==> code in LiveCodes(LiveWorkOf(c), Allowed(c, a), a)
    ensures code in Blockers(c, a) ==> a !in AvailableIn(c, PREPARATION_ACTIONS)
  {
    AvailableExactly(c, a);
    CodesAreReviews(ReviewNow(c), code);
  }

  /** Work on the document withholds what changes the document exactly when it is the one
      Operation shown - it runs, or nothing runs and nothing was queued before it - and so
      misses live work exactly when an Operation of another kind is ahead of all of it. */
  lemma {:induction false} LiveOperationHoldsTheDocument(c: Context, a: Action, k: nat)
    requires ChangesDocument(a) && OneRuns(c.operations)
    requires k < |c.operations| && Live(c.operations[k]) && c.operations[k].kind in DOCUMENT_OPERATION_TYPES
    ensures DocumentOperationInProgress in Blockers(c, a) <==>
      Allowed(c, a) && !Overtaken(c.operations, DOCUMENT_OPERATION_TYPES)
    ensures !Overtaken(c.operations, DOCUMENT_OPERATION_TYPES) ==> a !in AvailableIn(c, PREPARATION_ACTIONS)
    ensures Active(c.operations) == Some(k) ==> !Overtaken(c.operations, DOCUMENT_OPERATION_TYPES)
    ensures Active(c.operations) == Some(k) <==>
      || c.operations[k].status.Running?
      || forall j :: 0 <= j < |c.operations| ==>
           !c.operations[j].status.Running? && (j < k ==> !c.operations[j].status.Queued?)
  {
    LiveCodeIsFirst(c, a, DocumentOperationInProgress);
    ShownExactly(c.operations, k);
    MissedExactly(c.operations, DOCUMENT_OPERATION_TYPES);
    DocumentCode(LiveWorkOf(c), Allowed(c, a), a);
    AvailableExactly(c, a);
  }

  /** The actions that change the document or what is stamped on it. */
  predicate ChangesDocument(a: Action) {
    match a
    case Analyze => false
    case EditMatchingConfiguration => false
    case AskGapQuestions => false
    case Submit => false
    case DownloadPdf => false
    case _ => true
  }

  lemma {:induction false} DocumentCode(work: LiveWork, allowed: bool, a: Action)
    requires ChangesDocument(a)
    ensures DocumentOperationInProgress in LiveCodes(work, allowed, a) <==> allowed && work.onDocument
  {
  }

  /** The same holds of analysing a job; editing the matching configuration, which asks over
      every row, is withheld whenever an analysis is live. */
  lemma {:induction false} LiveAnalysisHoldsTheMatching(c: Context)
    requires AnyLive(c.operations, {OperationRows.AnalyzeJob})
    ensures MatchingInProgress in Blockers(c, EditMatchingConfiguration) <==> Allowed(c, EditMatchingConfiguration)
    ensures EditMatchingConfiguration !in AvailableIn(c, PREPARATION_ACTIONS)
    ensures AnalysisInProgress in Blockers(c, Analyze) <==>
      Allowed(c, Analyze) && !Overtaken(c.operations, {OperationRows.AnalyzeJob})
  {
    LiveCodeIsFirst(c, EditMatchingConfiguration, MatchingInProgress);
    LiveCodeIsFirst(c, Analyze, AnalysisInProgress);
    MissedExactly(c.operations, {OperationRows.AnalyzeJob});
    AvailableExactly(c, EditMatchingConfiguration);
  }

  /** Asking gap questions is withheld exactly while the Operation shown is asking them. */
  lemma {:induction false} GapQuestionsAreHeldExactly(c: Context)
    ensures GapQuestionsInProgress in Blockers(c, AskGapQuestions) <==>
      && Allowed(c, AskGapQuestions) && Active(c.operations).Some?
      && c.operations[Active(c.operations).value].kind.AskGapQuestions?
  {
    LiveCodeIsFirst(c, AskGapQuestions, GapQuestionsInProgress);
  }

  /** Whatever live work the rules see, editing is offered when none of it is on the document. */
  lemma {:induction false} EditIsOfferedExactly(c: Context)
    ensures Edit in AvailableIn(c, PREPARATION_ACTIONS) <==>
      !c.deleted && HasContent(c) && !ActiveIs(c.operations, DOCUMENT_OPERATION_TYPES)
  {
    AvailableExactly(c, Edit);
    NothingWithholds(c, Edit);
  }

  /** Other work running, work on the document queued behind it: the document may be edited
      while work on it is live. */
  lemma {:induction false} WorkQueuedBehindIsMissed(c: Context, running: OperationRows.Row, queued: OperationRows.Row)
    requires !c.deleted && HasContent(c) && c.operations == [running, queued]
    requires running.status.Running? && running.kind !in DOCUMENT_OPERATION_TYPES
    requires queued.status.Queued? && queued.kind in DOCUMENT_OPERATION_TYPES
    ensures AnyLive(c.operations, DOCUMENT_OPERATION_TYPES) && Edit in AvailableIn(c, PREPARATION_ACTIONS)
  {
    assert c.operations[0] == running && c.operations[1] == queued;
    ActiveLeads(c.operations);
    EditIsOfferedExactly(c);
  }

  lemma {:induction false} CodesOfNone(reasons: seq<Reason>)
    ensures Codes(reasons) == [] <==> reasons == []
  {
  }

  /** Submitting is offered exactly for a Ready document no resolvable dependent fact of which
      is pending or deleted. */
  lemma {:induction false} SubmitIsOfferedExactly(c: Context)
    ensures Submit in AvailableIn(c, PREPARATION_ACTIONS) <==>
      !c.deleted && PreparationNow(c).ReadyToSend? && ReviewNow(c) == []
  {
    AvailableExactly(c, Submit);
    NothingWithholds(c, Submit);
  }

  /** In any history the second half is never the obstacle: no Ready document has such a fact. */
  lemma {:induction false} EveryReadyDocumentCanBeSubmitted(steps: seq<DocumentHistory.Step>, c: Context)
    requires DocumentHistory.StepsKeyed(steps) && !c.deleted
    requires c.document == DocumentHistory.Execute(DocumentHistory.START, steps).document
    requires c.facts == DocumentHistory.Execute(DocumentHistory.START, steps).facts
    ensures Submit in AvailableIn(c, PREPARATION_ACTIONS) <==> StateOf(c.document, BasisNow(c)).Ready?
  {
    SubmitIsOfferedExactly(c);
    DocumentHistory.EmptyDocumentIsUnstamped(steps);
    if StateOf(c.document, BasisNow(c)).Ready? {
      var i := DocumentHistory.ApprovedWasApproved(steps);
    }
  }
}
