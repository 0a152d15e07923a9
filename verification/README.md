# CV engine: a verified model

A model in Dafny of the logic that decides what a generated CV may say, and of the machinery
that writes it. Nothing here runs the engine; every statement below is proved for all inputs,
all runs or all reachable states.

- **Evidence.** A reviewed claim quotes facts. `EvidencePairing` is the augmenting-path search
  that pairs each linked fact with a quote of its own; `ClaimReview` is the review built on it.
- **The draft.** `Presentations`, `Frame`, `Generation` produce a draft from chosen facts;
  `Narrowing`, `PageFit`, `Trimming`, `TrimRun`, `DraftSlots`, `Drafts` change it;
  `ClaimRules` and the checks in `Frame` and `Generation` validate it independently.
  `RolePlacement`, `GeneratedDraft` and the end of `ClaimRules` and `Generation` say that the
  two sides agree, and exactly where they do not.
- **Operations.** `OperationRows` is the stored row and the store calls; `OperationProtocol`
  is every interleaving of workers, clients, cancellation, slot loss, process death and
  recovery, one transaction a step; `OperationSafety` proves its invariant,
  `OperationGuarantees`, `OperationResults` and `OperationRecovery` what follows for users; `OperationRunner` is
  `run_claimed` as written, shown to follow that machine whatever happens between two of its
  transactions.
- **The document.** `FactDigests` and `DocumentState` derive its states from digests;
  `DocumentHistory` runs edits, template and fact changes, re-pins, checks, approvals and
  renders in any order, commands in flight included; `RenderErrors` is the failed render it
  shows; `ActiveOperation` is the live Operation a projection shows, `ActionPolicy` what is
  then offered, and `OfferedInRuns` ties the two to the runs of the protocol.
- **Exact small algorithms.** `EmploymentGap`, `ReadingOrder`, `ClaimHtml`,
  `KnowledgeImport`.

A digest (document hash, basis, content hash, text hash) is an injective constructor over what
it covers. There are two views of the document: `OperationRows.Body` is what its hash covers,
which is all the protocol compares and writes, and `DocumentState.Document` is the stored record
with its stamps. Values the engine takes from outside - the text folding and number reading of a
review, the two search patterns of the renderer, the span pattern of a role date, generated
identities, which transaction commits, what a handler delivers, whether the validator passed -
are parameters, universally quantified.

## What the model shows that the code's own words do not

- `validation.py:292-304` expects exactly the non-optional sections, while `drafts.py:236`
  keeps an optional section that has a line. A generated draft passes that rule if and only if
  no optional section has a fact to show under the choice (`Generation.BuildDraft`,
  `Generation.SectionOrderHoldsExactly`; a Profile whose draft fails it in
  `Generation.OptionalSectionIsUnexpected`).
- A presentation rule may carry one of the two built-in derivation identities; the validator
  then reads the lines it words as that contract. A generated line passes exactly when it is its
  fact's own wording or its rule is honoured: a rule of the extractive identity on one fact keeps
  whole clauses of the fact's wording, one of the join identity on several facts is their joined
  wordings, and any other rule is free (`Generation.GeneratedClaimPassesExactly`, over a whole
  draft `GeneratedDraft.GeneratedDraftPassesExactly`, a refused line in
  `Generation.ReservedIdentityIsRefused`).
- `validation.py:227` reads a rendering outside any guard. A canonical claim that passed makes
  validation raise, instead of reporting, exactly when its fact still resolves and has lost its
  rendering in the draft's language (`ClaimRules.ClaimIssues`,
  `ClaimRules.PassedClaimRaisesExactly`; such a claim in `ClaimRules.LostWordingRaises`).
- `docs/spec/state-and-use-cases.md:251-254` withholds what changes the document while an
  Operation on the document is queued or running, and `analyze` while an analysis is.
  `state.py:294-298` asks only the one Operation the projection shows: the running one, or else
  the oldest queued one. Such work is missed exactly when an Operation of another kind is ahead
  of all of it (`ActionPolicy.LiveOperationHoldsTheDocument`, `ActiveOperation.MissedExactly`);
  an analysis running with a section's regeneration queued behind it leaves editing on offer
  (`ActionPolicy.WorkQueuedBehindIsMissed`, reached in `OfferedInRuns.QueuedBehindIsReached`).
- Retry is offered on every retryable terminal row, but `lifecycle.py:65-66` refuses it for a
  deleted Application and `lifecycle.py:79-80` when the document whose hash was frozen is gone.
  The offer is in vain exactly then (`OperationGuarantees.OffersMatchCommands`; a deleted
  Application's row in `OperationGuarantees.DeletedIsStillOffered`).
- `operation_runner.py:251` is the one read of `run_claimed` outside every `try`: when it raises,
  a prepared result is neither activated nor discarded, for ever
  (`OperationGuarantees.FailedCheckStrandsTheResult`). Short of the process dying, that is the
  only way (`OperationGuarantees.PreparedIsUsedOnce`).
- "Succeeded only if activated" rests on handlers: one that raised the cancellation code without
  having been told it lost would succeed without activating
  (`OperationGuarantees.UnaskedStopWouldSucceed`).
- `user` is a source of fact rows but names no file, so what `fact_store_from_rows` loads can be
  exported by `fact_rows` again only when no user created a fact
  (`KnowledgeImport.ReexportNeedsNoUserFact`).
- The comment at `cv_engine/api/routers/documents.py:217` says a template change returns an approved
  document to draft. `document.py` excludes the template from the basis, and the model follows
  it (`DocumentState.TemplateMovesOnlyTheRender`).
- An approved or Ready document never has a review reason, so the review blockers on render and
  submit never fire (`DocumentHistory.ApprovedWasApproved`,
  `ActionPolicy.EveryReadyDocumentCanBeSubmitted`).

## Model

| member | source | states |
|---|---|---|
| `EvidencePairing.PairingSearch.Assign` | cv_engine/domain/claim_review.py:134-142 | One augmenting step: it terminates by the quotes not yet seen; success re-owns quotes so that exactly one more fact has a quote of its own; failure leaves the owners alone and every fitting quote seen and owned |
| `EvidencePairing.ContainsExactly` | cv_engine/domain/claim_review.py:128 | A text contains a quote exactly when it is something, the quote, and something |
| `EvidencePairing.ReownedKeepsPairing` | cv_engine/domain/claim_review.py:140-142 | Passing a quote to a new fact in the middle of the recursion, after its rival found another, keeps the pairing one-to-one and gains exactly the new fact |
| `EvidencePairing.ViolatorForbidsPairing` | cv_engine/domain/claim_review.py:114-144 | A set of facts with fewer fitting quotes than facts leaves no pairing |
| `EvidencePairing.QuotesPairWithFacts` | cv_engine/domain/claim_review.py:114-144 | True exactly when some one-to-one assignment gives every fact a quote contained in one of its texts; false exactly when a Hall violator exists |
| `ClaimReview.ReviewProblems` | cv_engine/domain/claim_review.py:147-238 | The problem codes reported are exactly those whose condition holds, and none is reported exactly when the assertions attest the claim: they cover its text, quote only it, give each linked fact a quote of its own found word for word in that fact's meaning or wording, cite exactly its facts, and every number it states is in those texts joined by spaces |
| `ClaimReview.AttestedFactsAreQuoted` | cv_engine/domain/claim_review.py:196-238 | Every fact an attested claim links is quoted word for word, from its meaning or its wording, by some assertion |
| `ClaimReview.LinkedAsOftenAsCited` | cv_engine/domain/claim_review.py:210-212 | A linked fact cited twice asks for two quotes |
| `Narrowing.KeepFrameClaims` | cv_engine/domain/drafts.py:321-347 | What is kept is the document without the other lines: structure stays, empty optional sections go, resealed |
| `Narrowing.DropClaims` | cv_engine/domain/drafts.py:350-367 | Refuses unknown and structural lines, and otherwise is the narrowing that names exactly those lines |
| `Narrowing.RemoveClaim` | cv_engine/domain/drafts.py:597-623 | Which claim may be removed, every refusal, and that the result is the narrowing naming that one line |
| `Narrowing.WithoutSectionsTwice` | cv_engine/domain/drafts.py:350-367 | Dropping in two goes is dropping the union |
| `Narrowing.SectionsThatStay` | cv_engine/domain/drafts.py:321-347 | A narrowed section stays unless it has no claim left and an optional section of the Profile has its name in the document's language |
| `Narrowing.LinesThatStay` | cv_engine/domain/drafts.py:339-343 | A claim stays exactly when it is not named, or is a heading, a date or a contact line |
| `PageFit.SearchBlocks` | cv_engine/domain/page_fit.py:118-137 | The search keeps the candidate furthest above its floor, the later one on a tie |
| `PageFit.PickIsFurthest` | cv_engine/domain/page_fit.py:99-138 | The picked candidate has the largest surplus, and everything after it strictly less |
| `PageFit.NextTrim` | cv_engine/domain/page_fit.py:99-138 | None exactly when no block of a section the Profile names stands above its promise with a line that may go, in either phase; otherwise a line of such a block, neither pinned nor a title, and a demanded one only when no other may go |
| `Trimming.SurplusNeverRises` | cv_engine/domain/page_fit.py:110-138 | Whatever is dropped, every candidate still offered is no further above its floor than some candidate was before |
| `Trimming.BlocksKeepTheirFloor` | cv_engine/domain/page_fit.py:11-17 | Along a run a block of n lines keeps at least: under a role's heading the smaller of n and the Profile's minimum, under any heading and in a section with no heading that is not optional the smaller of n and one, and every pinned line and title |
| `Trimming.RunKeeps` | cv_engine/domain/page_fit.py:89-138 | Along a run structure, lines that link a pinned fact or a historical title, and sections the Profile does not name stay |
| `Trimming.EndIsFullyTrimmed` | cv_engine/domain/page_fit.py:78-138 | Where nothing is offered any more a role's block of n lines has min(n, max(1, minimum, untouchable)), another heading's min(n, max(1, untouchable)), leading lines the same where there is no heading and the section is not optional and else just the untouchable - by preference untouchable, then demanded, then other, earlier first |
| `TrimRun.TrimOrder` | cv_engine/application/services/drafts/authoring.py:426-443 | The whole drop order: each line is the candidate the policy picks from the draft left by the lines before it, until it picks none; so undemanded before demanded with surplus never rising within a phase. Every draft on the way keeps the Profile's promise; it ends in the closed form, each prefix is a valid run, trims match the prefixes, and it is no longer than the evidence lines |
| `TrimRun.SecondPhaseDropsDemanded` | cv_engine/domain/page_fit.py:99-107 | Once only demanded lines may go, only demanded lines do |
| `TrimRun.TrimmingDanglesNothing` | cv_engine/domain/frame.py:124-138 | Heading by heading: one that dangles after any run dangled before it |
| `Presentations.RenderSection` | cv_engine/domain/presentations.py:120-203 | For every list of lines: it is the result exactly when no rule for the section reaches outside the pool and the lines, each in its turn, say all the facts - where exactly one rule of this Profile, section and emphasis has the next facts, its wording of them; where none has, the next fact's own wording. On distinct facts the overlap refusal is unreachable |
| `Presentations.PresentedInOrder` | cv_engine/domain/presentations.py:152-203 | The emitted claims' fact lists, concatenated, are exactly the input in order, each claim saying its own facts |
| `Frame.LayOutChoice` | cv_engine/domain/frame.py:76-121 | Each section's layout is, in pool order, exactly the canonical facts of its pool that are structure or were picked - with no choice, structure or sayable; accepts exactly the choices of the Profile's sections and canonical pool facts after which all that belongs has a rendering |
| `Frame.DanglingHeading` | cv_engine/domain/frame.py:124-138 | None exactly when every headed block has evidence; otherwise the heading of the first block without |
| `Contracts.SpecNamedExactly` | cv_engine/domain/page_fit.py:114-117 | A section's spec is the last of the Profile with its name in the document's language |
| `Frame.MisplacedRoleClaims` | cv_engine/domain/frame.py:141-171 | Reports exactly the lines under another role than their facts belong to |
| `RolePlacement.LaidOutIsWellPlaced` | cv_engine/domain/frame.py:76-171 | Lines laid out in pool order with every title among them sit under the role their facts belong to |
| `RolePlacement.NarrowingsKeepPlacement` | cv_engine/domain/drafts.py:321-367 | Any sequence of narrowings, trims and removals keeps a document free of misplaced lines |
| `Generation.BuildDraft` | cv_engine/domain/drafts.py:133-258 | Succeeds exactly when the choice is acceptable and every section can be worded; each section's lines say, in pool order, exactly the facts that are structure or were picked; each in its turn by the rules of this Profile, section and emphasis; the headline has the Profile's wording and links exactly the historical titles that reached the document; the draft is sealed, and it has the sections validation expects exactly when no fact belongs in an optional section |
| `Generation.GeneratedDraftIsWellPlaced` | cv_engine/domain/drafts.py:185-242 | With canonical heading-styled titles a generated draft has no misplaced line and links only facts of its own pools |
| `Generation.SectionOrderHoldsExactly` | cv_engine/domain/validation.py:292-304 | A generated draft passes the section-order rule if and only if no optional section has a fact to show under the choice |
| `Generation.OptionalSectionIsUnexpected` | cv_engine/domain/drafts.py:236 | A concrete Profile and facts whose generated draft, accepted and worded, fails that rule |
| `Generation.ClaimOfLine` | cv_engine/domain/drafts.py:185-236 | A presented line's claim has its text, style and facts, and is canonical without a rule, derived by a rule on one fact, composed by a rule on several |
| `Generation.GeneratedClaimPassesExactly` | cv_engine/domain/validation.py:85-256 | A generated claim passes every claim rule exactly when it is its fact's own wording or its rule is honoured - a condition on the rule and its facts alone - and never makes the rules raise |
| `Generation.GeneratedClaimsPass` | cv_engine/domain/validation.py:85-256 | Where every rule is free of the reserved identities or honoured, every generated claim passes |
| `GeneratedDraft.GeneratedDraftPassesExactly` | cv_engine/domain/drafts.py:185-258 | A whole generated draft, headline and contacts included, passes the claim rules exactly when its contacts do and every line is well worded; the headline always passes, and only a contact can make the rules raise |
| `Generation.ReservedIdentityIsRefused` | cv_engine/domain/validation.py:190-213 | A concrete rule set whose generated line the validator refuses |
| `DraftSlots.ReplaceClaimSlot` | cv_engine/domain/drafts.py:370-383 | Exchanges the first claim of that ID, in headline, contacts and sections order, or finds none |
| `DraftSlots.RebuiltTwice` | cv_engine/domain/drafts.py:370-383 | Exchanging claims slot for slot twice is exchanging them once by the last list |
| `Drafts.ApplyClaimEdit` | cv_engine/domain/drafts.py:503-594 | Taken exactly when the claim exists and the edit types some text, or names the join on at least two distinct sayable facts of the claim's editable style. A typed text stands word for word (stripped) at the claim's slot: the headline keeps its facts; any other claim links the facts named in its own style and is canonical exactly when text and style are the one fact's own, derived when it keeps whole clauses of it, else pending. A join is the facts' wordings in the order given, one space between |
| `Drafts.JoinedExactly` | cv_engine/domain/drafts.py:460-500 | The join contract yields exactly the facts' wordings spaced together, for distinct canonical facts of one editable style |
| `Drafts.TextEditIsPendingUnlessSupported` | cv_engine/domain/drafts.py:414-457 | A text edit is pending exactly when the text is neither a canonical rendering nor extractive clauses of one editable fact of its style |
| `Drafts.RestoreClaims` | cv_engine/domain/drafts.py:386-398 | Restores each named claim in its slot, in whatever order the set is visited, and fails exactly when a claim to restore is gone |
| `Drafts.EditTouchesOneClaim` | cv_engine/domain/drafts.py:503-594 | An edit changes one claim, keeps its ID, and leaves everything else of the draft alone |
| `Drafts.EditsStayConfined` | cv_engine/domain/drafts.py:503-594 | Any sequence of edits changes only claims it names |
| `Drafts.RestoringUndoesEdits` | cv_engine/domain/drafts.py:386-403 | After any edits confined to a set, restoring the set gives back the sealed original, hash included |
| `ClaimRules.ClaimIssues` | cv_engine/domain/validation.py:98-256 | No issue exactly when the claim passes every rule, and an exception exactly when a canonical claim's fact lacks the rendering |
| `ClaimRules.PassedClaimRaisesExactly` | cv_engine/domain/validation.py:216-234 | A canonical claim that passed makes a later check raise exactly when its fact resolves and has lost its rendering |
| `ClaimRules.LostWordingRaises` | cv_engine/domain/validation.py:227 | A concrete claim that passes and then makes the check raise |
| `ClaimRules.ClaimsAreValid` | cv_engine/domain/validation.py:259-264 | No issue exactly when IDs are distinct and every claim passes, the first as headline |
| `ClaimRules.EditedClaimPassesUnlessPending` | cv_engine/domain/drafts.py:414-594 | A claim an edit yields as canonical, derived or composite passes all rules against the same facts, with any presentations or none; a pending one never does |
| `ClaimRules.ReviewedClaimPassesWhileAttested` | cv_engine/domain/drafts.py:105-130 | A promoted claim passes exactly while its evidence is of the current policy and still attests it |
| `ClaimRules.AuthorizedExactly` | cv_engine/domain/drafts.py:105-130 | Exactly pending, linked, evidence-styled wording on canonical facts is promoted, and nothing of the claim changes but what authorizes it |
| `OperationRows.OperationStore.ClaimOperation` | cv_engine/infrastructure/persistence/operation_execution.py:52-112 | Claims exactly a queued, unlocked row no claim guard refuses, changes no other row, and keeps at most one running Operation an Application and one running render |
| `OperationRows.OperationStore.ClaimNextOperation` | cv_engine/infrastructure/persistence/operation_execution.py:114-153 | Claims the first claimable row in queue order, or none is claimable |
| `OperationRows.OperationStore.InterruptClaims` | cv_engine/infrastructure/persistence/operation_execution.py:155-189 | Every running row and no other is interrupted |
| `OperationRows.OperationStore.RequestCancellation` | cv_engine/infrastructure/persistence/operation_client.py:125-164 | Queued rows are cancelled at once, running ones asked, terminal ones left alone |
| `OperationRows.OperationStore.CompleteOperation` | cv_engine/infrastructure/persistence/operation_execution.py:274-337 | Only the lease's owner completes; a cancellation request makes it cancelled |
| `OperationRows.OperationStore.FailOperation` | cv_engine/infrastructure/persistence/operation_execution.py:339-382 | Only the lease's owner fails an Operation |
| `OperationRows.OperationStore.RecordOutput` | cv_engine/infrastructure/persistence/operation_execution.py:233-272 | Outputs are recorded only while running and not asked to stop |
| `OperationProtocol.ActivateKeeps` | cv_engine/application/operation_runner.py:295-332 | The activating transaction keeps what holds of one Operation and its execution, whatever it finds and whether or not it commits |
| `OperationProtocol.EndingStepsKeep` | cv_engine/application/operation_runner.py:166-182 | Completing or failing outside the activation never succeeds an Operation, committed or not |
| `OperationSafety.ActivationReadsTheStored` | cv_engine/application/operation_runner.py:301-319 | What an activation writes was read from the document as it stands, under the hash the Operation froze |
| `OperationSafety.StepKeeps` | cv_engine/application/operation_runner.py:205-332 | Every step of any worker, client, recovery, slot loss or death keeps the whole invariant and takes nothing back |
| `OperationSafety.LaterFollows` | alembic/versions/0001_postgresql_baseline.py:73-81 | In any longer run rows evolve only forward: terminal rows stay, requests are sticky, prepared results and ended executions are fixed |
| `OperationGuarantees.RunningIsLeasedAndExclusive` | alembic/versions/0001_postgresql_baseline.py:456-469 | In every run running is leased, one Operation runs an Application and one render runs overall |
| `OperationGuarantees.TerminalRowsNeverChange` | alembic/versions/0001_postgresql_baseline.py:73-81 | A terminal row is the same in every continuation |
| `OperationGuarantees.StoppedNeverSucceeds` | cv_engine/runtime/execution.py:138-151 | Interrupted, cancelled or asked to stop, an Operation never succeeds, records an output or writes a document |
| `OperationGuarantees.SucceededIsActivated` | cv_engine/application/operation_runner.py:220-332 | Succeeded exactly when activated; a document Operation wrote exactly once; outputs only on succeeded ones; any other wrote nothing |
| `OperationResults.ActivationLeaves` | cv_engine/application/services/drafts/activation.py:27-66 | Right after an activation the row has succeeded with the prepared outputs, and the document holds the prepared content under the analysis and template it had; a render or gap Operation leaves it as it was; an analysis starts one on itself, without content, in the owner's default template, where there was none |
| `OperationResults.DefaultIsChosenLast` | cv_engine/application/services/analysis/activation.py:80-90 | In any run the default template a first document takes is the one its owner chose last; none before any choice |
| `OperationResults.SucceededLeavesItsResult` | cv_engine/application/operation_runner.py:295-332 | In every run a succeeded Operation recorded the outputs it prepared; one that generates content wrote the content it prepared over the document it had frozen, same analysis and template; a render left that document as it was; an analysis wrote at most a first document |
| `OperationResults.ChangedSourcesFail` | cv_engine/application/operation_runner.py:205-224 | Sources that no longer hold when the execution begins fail the Operation as changed |
| `OperationResults.BrokenHandlerFails` | cv_engine/application/operation_runner.py:226-249 | A handler that breaks fails the Operation with the code it broke with |
| `OperationResults.RequestedStopCancels` | cv_engine/application/operation_runner.py:217-226 | Asked to stop before its handler began, an Operation is cancelled without having prepared anything |
| `OperationResults.StaleResultIsDiscarded` | cv_engine/application/operation_runner.py:254-332 | A result whose sources changed meanwhile is discarded once, the Operation fails as changed, and no document is touched |
| `OperationGuarantees.PreparedIsUsedOnce` | cv_engine/application/operation_runner.py:220-293 | A prepared result is activated or discarded, once and never both, exactly except when the second cancellation read raised or the process died |
| `OperationGuarantees.FailedCheckStrandsTheResult` | cv_engine/application/operation_runner.py:251-253 | A result whose second check raises is never used in any continuation |
| `OperationGuarantees.FirstClaimed` | cv_engine/application/operation_runner.py:184-186 | A first run - worker, recovery, enqueue, claim - leaves its Operation claimed at the start of its execution |
| `OperationGuarantees.SecondCheckIsReached` | cv_engine/application/operation_runner.py:220-251 | Such executions exist, with any prepared result |
| `OperationGuarantees.UnaskedStopWouldSucceed` | cv_engine/application/operation_runner.py:230-234 | Stopping as cancelled succeeds without activating exactly when nobody asked and the lease is held |
| `OperationGuarantees.NoUpdateIsLost` | cv_engine/application/operation_runner.py:301-319 | Every document write replaces what its author had read, and an Operation's author read the frozen hash |
| `OperationGuarantees.OffersMatchCommands` | cv_engine/application/operations.py:49-70 | On every reachable row cancel is offered exactly when it would change something; the retry command accepts exactly the offered rows whose Application is live and whose frozen document exists, and refuses the others for that reason |
| `OperationGuarantees.DeletedIsStillOffered` | cv_engine/application/services/operations/lifecycle.py:65-66 | A run whose cancelled Operation is offered a retry that is refused because its Application is deleted |
| `OperationGuarantees.RetryStartsAfresh` | cv_engine/application/services/operations/lifecycle.py:78-97 | An accepted retry queues a new Operation of the same kind and Application whose frozen document is the present one, and nothing if the Application is deleted in between |
| `OperationGuarantees.DeletionIsFinal` | cv_engine/infrastructure/persistence/operation_client.py:61-62 | Once an Application is deleted no retry of its rows is accepted and nothing is enqueued for it in any continuation |
| `OperationRecovery.RecoveryTouchesOnlyTheDead` | cv_engine/application/operation_runner.py:188-196 | While the slot is never lost, recovery interrupts only Operations whose worker stopped and whose execution is over, and afterwards those are interrupted and nothing runs |
| `OperationRecovery.SlotPassesOn` | cv_engine/runtime/execution.py:138-151 | A worker that stopped or died gives the slot up, so that a new one can take it and recover |
| `OperationRunner.Runner.ExecuteHandler` | cv_engine/application/operation_runner.py:226-249 | A handler lost before it began delivers nothing, lost before a retry it raises; either way the execution stands where the code goes next |
| `OperationRunner.Runner.ActivateResult` | cv_engine/application/operation_runner.py:295-332 | The activation returns a terminal row or raises, and leaves the execution to be discarded whenever it did not succeed |
| `OperationRunner.Runner.RunClaimed` | cv_engine/application/operation_runner.py:205-278 | Whatever others do between its transactions it ends, returns the stored terminal row exactly when it returns, uses a prepared result once unless the second read raised, and reports success exactly for an activated one |
| `FactDigests.FactsHash` | cv_engine/domain/document.py:79-93 | The loop over sorted identities computes the digest of the named facts |
| `FactDigests.DigestIsExact` | cv_engine/domain/document.py:79-93 | Digests are equal exactly when they name the same facts and each is missing in both stores or has the same identity, meaning, renderings, tags, status, dates, supersession and style in both |
| `DocumentState.BasisIsExact` | cv_engine/domain/document.py:96-101 | Two bases are equal exactly when analysis, content and everything each dependent fact says are |
| `DocumentState.DependentsExactly` | cv_engine/domain/document.py:62-76 | A document depends on exactly the facts its headline, contacts and section lines link |
| `DocumentState.ReasonsExactly` | cv_engine/domain/document.py:62-154 | A review reason is there exactly when some linked fact that resolves is pending, or deleted |
| `DocumentState.OtherFactsMoveNothing` | cv_engine/domain/document.py:62-154 | A change to a fact no claim links changes no state, check or review reason |
| `DocumentState.ApprovalFollowsDependents` | cv_engine/domain/document.py:96-122 | An approval survives a change of facts exactly when every dependent fact still says all it said, or is still missing |
| `DocumentState.TemplateMovesOnlyTheRender` | cv_engine/domain/document.py:104-122 | A template change keeps basis, check and approval; an approved document is then Ready exactly when its last render was of this content in that template, so putting a template back restores every state |
| `DocumentHistory.StepKeeps` | cv_engine/infrastructure/persistence/documents.py:149-343 | Every write, and every command landing late, keeps each stamp earned |
| `DocumentHistory.WriteLands` | cv_engine/infrastructure/persistence/documents.py:184-280 | A write with the document's hash sets the body under its analysis and never to no content, the template, or a new analysis that starts the document over; any other changes nothing |
| `DocumentHistory.ApprovalLands` | cv_engine/application/services/drafts/review.py:150-178 | An approval that lands leaves an existing one alone, else stamps the report, and the approval exactly when it passed |
| `DocumentHistory.ApprovedWasApproved` | cv_engine/application/services/drafts/review.py:123-194 | Approved in any run means an earlier approval of this content on this analysis with these facts, on a check that had just passed, none needing review |
| `DocumentHistory.CheckedWasChecked` | cv_engine/application/services/drafts/review.py:95-194 | Passed or failed in any run means an earlier check of this content on this analysis with these facts and just that outcome; outdated exactly when the report is of another basis |
| `DocumentHistory.ReadyWasApprovedThenRendered` | cv_engine/application/services/rendering.py:190-225 | Ready in any run means that approval and after it a render of the same content in the template of now |
| `DocumentHistory.EmptyDocumentIsUnstamped` | alembic/versions/0001_postgresql_baseline.py:745-749 | A document without content never carries a stamp, whatever is in flight |
| `RenderErrors.RenderErrorShownExactly` | cv_engine/application/state.py:158-169 | In any run the document shows a render error exactly when a render of it, as it is now, failed and neither another failure, nor a render, nor a re-pin has come since |
| `DocumentHistory.UndoingRestores` | cv_engine/domain/document.py:115-154 | After any edits, template and fact changes, once content, template and dependent facts are back every view is back |
| `EmploymentGap.MonthIsExact` | cv_engine/domain/profiles.py:35-37 | The month ordinal is exact, ordered and counts on over year ends |
| `EmploymentGap.HolesAreCalendarMonths` | cv_engine/domain/profiles.py:29-82 | When the pattern reads months 01..12, the dated roles have a hole the sweep sees exactly when some month of the calendar is one |
| `EmploymentGap.DatedRoles` | cv_engine/domain/profiles.py:40-82 | Every canonical role's span, or the first in identity order that has none |
| `EmploymentGap.RefuseUnaccountedRoles` | cv_engine/domain/profiles.py:85-118 | Accepts exactly when offered and waived roles partition the dated ones; which refusal otherwise |
| `EmploymentGap.RefuseInteriorGap` | cv_engine/domain/profiles.py:121-146 | Accepts exactly when no month between a start and an end is uncovered; a refusal names roles around such a month |
| `ReadingOrder.EarliestLosesNothing` | cv_engine/domain/render_validation.py:344-348 | Taking the earliest place never loses an embedding |
| `ReadingOrder.LinesOutOfOrder` | cv_engine/domain/render_validation.py:327-349 | No late line exactly when the located lines' anchors are a subsequence of the text; and which lines are late |
| `ClaimHtml.EscapingIsUndone` | cv_engine/infrastructure/rendering.py:50-61 | Unescaping escaped text gives the text |
| `ClaimHtml.WrapFragment` | cv_engine/infrastructure/rendering.py:129-151 | Wrapping disjoint spans of a text keeps the text and the balance of tags, and adds one element a span |
| `ClaimHtml.GroupsAreApart` | cv_engine/infrastructure/rendering.py:112-126 | Merged groups are in order and disjoint, and no two neighbours should have merged |
| `ClaimHtml.GroupsCoverMatches` | cv_engine/infrastructure/rendering.py:112-126 | Groups cover every matched character and besides only separators |
| `ClaimHtml.EmphasisSpans` | cv_engine/infrastructure/rendering.py:112-126 | The first groups up to the cap, in order and disjoint |
| `ClaimHtml.RenderClaim` | cv_engine/infrastructure/rendering.py:129-151 | Read back, the HTML is exactly the claim's text, every tag is closed in order, the first groups up to the cap are emphasized, each in one element, and exactly the characters of those groups stand inside `strong` |
| `ClaimHtml.RunsAreIsolated` | cv_engine/infrastructure/rendering.py:50-61 | In a right-to-left line a character stands inside a left-to-right `bdi` exactly when it lies in one of the runs found; in any other line none does |
| `ClaimHtml.EmphasisMarksSpans` | cv_engine/infrastructure/rendering.py:140-151 | Whatever the left-to-right runs, a character stands inside `strong` exactly when it lies in one of the spans |
| `KnowledgeImport.FactRows` | cv_engine/domain/knowledge_import.py:36-57 | One row a fact with its position in its source; fails exactly when a fact has no canonical file |
| `KnowledgeImport.ImportRoundTrips` | cv_engine/domain/knowledge_import.py:36-74 | Loading the rows in any order gives back facts and order exactly when the store lays its sources out one after another |
| `KnowledgeImport.LaidExactly` | cv_engine/domain/knowledge_import.py:73-74 | Whatever rows are loaded, no fact stands twice and each stands as its last row has it |
| `KnowledgeImport.SourcesRoundTrip` | cv_engine/domain/facts.py:75-101 | A store built from sources always survives its rows |
| `KnowledgeImport.ReexportNeedsNoUserFact` | cv_engine/domain/knowledge_import.py:60-74 | Loaded facts can be exported again exactly when no row is of the user source |
| `KnowledgeImport.SplitProfile` | cv_engine/domain/knowledge_import.py:92-105 | Refuses exactly a repeated section name; template without any binding, binding with pools and pins |
| `KnowledgeImport.JoinProfile` | cv_engine/domain/knowledge_import.py:108-130 | Refuses exactly a binding of an unknown section; each section gets its pool and pins |
| `KnowledgeImport.SplitThenJoin` | cv_engine/domain/knowledge_import.py:92-130 | Gives the Profile with pins in pool order; the same Profile exactly when they were a pool-ordered sublist |
| `KnowledgeImport.JoinThenSplit` | cv_engine/domain/knowledge_import.py:92-130 | Joining and splitting gives back a section's binding |
| `ActionPolicy.DeriveActions` | cv_engine/application/state.py:279-384 | Available is allowed without a blocker, blocked carries exactly its codes, and the recommendation is the stage's next step, only when available |
| `ActionPolicy.RecommendationExactly` | cv_engine/application/state.py:369-383 | The recommendation walks the preparation: each of analyse, draft, check, approve, render and submit is recommended exactly when the document stands there and nothing withholds it, and nothing else ever is |
| `ActionPolicy.OffersPartitionAllowed` | cv_engine/application/state.py:361-367 | Available and blocked split the allowed actions |
| `ActiveOperation.ShownExactly` | cv_engine/infrastructure/persistence/application_projections.py:145-160 | A live Operation is the one shown exactly when it runs, or nothing runs and none was queued before it |
| `ActiveOperation.MissedExactly` | cv_engine/infrastructure/persistence/application_projections.py:145-160 | Asking the one shown misses live work of some kinds exactly when another kind is ahead of all of it |
| `ActionPolicy.LiveOperationHoldsTheDocument` | cv_engine/application/state.py:294-351 | For a live Operation on the document, what changes the document is withheld exactly when no other kind is ahead of all such work - so when it runs, or nothing runs and none was queued before it |
| `ActionPolicy.LiveAnalysisHoldsTheMatching` | cv_engine/application/state.py:344-349 | While an analysis is live editing the matching configuration is withheld always, analysing again exactly when no other kind is ahead |
| `ActionPolicy.WorkQueuedBehindIsMissed` | cv_engine/application/state.py:296-298 | Other work running and document work queued behind it: editing is offered |
| `OfferedInRuns.LiveWorkInRuns` | cv_engine/application/state.py:294-351 | In every run of the whole system, the same exact condition for the rows it leaves; a running document Operation always withholds |
| `OfferedInRuns.QueuedBehindIsReached` | cv_engine/infrastructure/persistence/operation_client.py:40-104 | A run reaches such rows |
| `ActionPolicy.SubmitIsOfferedExactly` | cv_engine/application/state.py:117-155 | Submit is offered exactly for a Ready document with no pending or deleted resolvable dependent fact |
| `ActionPolicy.EveryReadyDocumentCanBeSubmitted` | cv_engine/application/state.py:279-384 | In any history submit is offered exactly for a Ready document |

## Left out

- Narrowing.DropClaims: stated for drafts whose line IDs are unique; on a repeated ID the source keeps one claim per ID in a dictionary.
- Narrowing.RemoveClaim: stated for drafts whose claim IDs are unique, as the validator requires.
- Frame.LayOutChoice: which of several missing renderings is named first is not stated; sections have distinct English names, which a repeated dictionary key would merge.
- Generation.BuildDraft: claim identities come from a naming function; that the derived names are unique is not modelled.
- Drafts.RestoreClaims: where the original repeats a claim ID the source restores the last such claim and the model the first; valid drafts repeat none.
- Drafts.ApplyClaimEdit: case folding, clause splitting and protected words are a parameter.
- ClaimReview.ReviewProblems: text folding and number reading are parameters; the wording of a problem's message is not modelled.
- OperationRunner.Runner.RunClaimed: handlers raise the cancellation code only after a poll told them to, as the shown ones do; logging and the post-activation clean-up are not modelled.
- OperationRunner.Runner.ExecuteHandler: what happens inside a provider call is one outcome.
- OperationRecovery.RecoveryTouchesOnlyTheDead: for runs without slot loss; with slot loss recovery may interrupt live work, and the other guarantees still hold.
- EmploymentGap.DatedRoles: the span pattern is a parameter giving year and month pairs.
- ReadingOrder.LinesOutOfOrder: the tokenizer is not modelled; lines and text come as tokens.
- KnowledgeImport.SplitThenJoin: sections repeat no candidate, as their own validation requires; validation of the joined Profile is not modelled.
- The polling loop of the worker (timers, thread pool, maintenance): its effects are the steps of the protocol, taken in any order.
- Idempotency keys of enqueued Operations (every enqueue and retry carries a key of its own) and the continuation an analysis enqueues.
- A failing discard: it is best effort and logged, and counts here as the one discard.
- `add_claim`, `reorder_draft`, the Hebrew date lines and contact lines of the renderer, and the page measurement that picks a prefix of the drop order.
- Validation rules on prohibited wording, writing style, headline safety and the manifest.
- The API, accounts, storage files, the browser and the provider.
