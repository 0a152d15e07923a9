/** Editing a draft's claims, and the wording contracts edits are held to (domain/drafts.py). */
module Drafts {
  import opened Wrappers
  import opened Contracts
  import opened DraftSlots
  import opened Sequences
  import Presentations

  /** What is foreign to this model: trimming whitespace, splitting a rendering into
      clauses, and the form two clauses are compared in. */
  datatype Wording = Wording(strip: string -> string, clauses: string -> seq<string>, normalized: string -> string)

  const EXTRACTIVE_DERIVATION := Contract("extractive-clauses", "1.0.0")
  const CANONICAL_JOIN := Contract("canonical-renderings", "1.0.0")

  type Rules = seq<Presentations.Rule>

  datatype DraftError =
    | FactRefused(fact: FactError)
    | PresentationRefused(presentation: Presentations.PresentationError)
    | UnknownContract(contract: Contract)
    | NotThePresentedWording(contract: Contract)
    | NotOneFact
    | StyleNotEditable
    | NotWholeClauses
    | NotDistinctFacts
    | OutputStyleRefused
    | InputStylesDiffer
    | TextAndTemplate
    | EmptyText
    | UnknownClaim(claimId: string)

  // ----- wording contracts -----

  /** The text keeps one or more whole clauses of the source, in their order. */
  predicate KeepsClauses(text: string, source: string, wording: Wording) {
    var clauses := wording.clauses(source);
    && wording.normalized(text) != ""
    && exists start, end ::
         0 <= start < end <= |clauses| && wording.normalized(text) == wording.normalized(JoinWords(clauses[start..end]))
  }

  /** Why derived wording is refused; None accepts it. Without presentations only the
      extractive contract is known. */
  function DerivedRefusal(
      text: string, factIds: seq<string>, facts: FactStore, language: Language, style: Style, derivation: Contract,
      rules: Option<Rules>, wording: Wording): Option<DraftError>
  {
    if derivation != EXTRACTIVE_DERIVATION then
      match rules
      case None => Some(UnknownContract(derivation))
      case Some(known) =>
        match Presentations.RenderRule(known, derivation, factIds, language, style)
        case Err(e) => Some(PresentationRefused(e))
        case Ok(expected) => if text == expected then None else Some(NotThePresentedWording(derivation))
    else if |factIds| != 1 then Some(NotOneFact)
    else
      match GetCanonical(facts, factIds[0])
      case Err(e) => Some(FactRefused(e))
      case Ok(fact) =>
        if !Editable(style) || fact.style != style then Some(StyleNotEditable)
        else
          match Rendering(facts, factIds[0], language)
          case Err(e) => Some(FactRefused(e))
          case Ok(source) => if KeepsClauses(text, source, wording) then None else Some(NotWholeClauses)
  }

  /** The first fact that does not resolve, if any. */
  function FirstRefused(facts: FactStore, factIds: seq<string>): Option<FactError> {
    if factIds == [] then None
    else
      match GetCanonical(facts, factIds[0])
      case Err(e) => Some(e)
      case Ok(_) => FirstRefused(facts, factIds[1..])
  }

  function Renderings(facts: FactStore, factIds: seq<string>, language: Language): Result<seq<string>, FactError> {
    if factIds == [] then Ok([])
    else
      match Rendering(facts, factIds[0], language)
      case Err(e) => Err(e)
      case Ok(text) =>
        match Renderings(facts, factIds[1..], language)
        case Err(e) => Err(e)
        case Ok(rest) => Ok([text] + rest)
  }

  /** The one wording a composite claim may have. */
  function RenderComposite(
      factIds: seq<string>, facts: FactStore, language: Language, style: Style, template: Contract,
      rules: Option<Rules>): Result<string, DraftError>
  {
    if template != CANONICAL_JOIN then
      match rules
      case None => Err(UnknownContract(template))
      case Some(known) =>
        match Presentations.RenderRule(known, template, factIds, language, style)
        case Err(e) => Err(PresentationRefused(e))
        case Ok(text) => Ok(text)
    else if |factIds| < 2 || !Presentations.Distinct(factIds) then Err(NotDistinctFacts)
    else if !Editable(style) then Err(OutputStyleRefused)
    else
      match FirstRefused(facts, factIds)
      case Some(e) => Err(FactRefused(e))
      case None =>
        if exists id :: id in factIds && id in facts && facts[id].style != style then Err(InputStylesDiffer)
        else
          match Renderings(facts, factIds, language)
          case Err(e) => Err(FactRefused(e))
          case Ok(texts) => Ok(JoinWords(texts))
  }

  lemma {:induction false} NoneRefused(facts: FactStore, factIds: seq<string>)
    ensures FirstRefused(facts, factIds).None? <==> forall id :: id in factIds ==> GetCanonical(facts, id).Ok?
  {
    if factIds != [] {
      NoneRefused(facts, factIds[1..]);
      assert factIds == [factIds[0]] + factIds[1..];
    }
  }

  // ----- what a join says -----

  /** The canonical wordings of some facts, one after the other. */
  function WordingsOf(ids: seq<string>, facts: FactStore, language: Language): seq<string>
    requires AllSayable(ids, facts, language)
  {
    seq(|ids|, k requires 0 <= k < |ids| => assert ids[k] in ids; facts[ids[k]].renderings[language])
  }

  predicate AllSayable(ids: seq<string>, facts: FactStore, language: Language) {
    forall id :: id in ids ==> CanSay(facts, id, language)
  }

  lemma {:induction false} RenderingsAre(facts: FactStore, ids: seq<string>, language: Language)
    requires forall id :: id in ids ==> GetCanonical(facts, id).Ok?
    ensures Renderings(facts, ids, language).Ok? <==> AllSayable(ids, facts, language)
    ensures AllSayable(ids, facts, language) ==>
      Renderings(facts, ids, language) == Ok(WordingsOf(ids, facts, language))
  {
    if ids != [] {
      assert ids == [ids[0]] + ids[1..];
      RenderingsAre(facts, ids[1..], language);
      if AllSayable(ids, facts, language) {
        assert CanSay(facts, ids[0], language);
        assert WordingsOf(ids, facts, language) ==
          [facts[ids[0]].renderings[language]] + WordingsOf(ids[1..], facts, language);
      }
    }
  }

  /** Facts that may be joined in this style. */
  predicate Joinable(ids: seq<string>, facts: FactStore, style: Style) {
    && |ids| > 1 && (forall i, j :: 0 <= i < j < |ids| ==> ids[i] != ids[j])
    && (style.Paragraph? || style.Bullet? || style.Item?)
    && forall id :: id in ids ==> id in facts && facts[id].status.CanonicalFact? && facts[id].style == style
  }

  lemma {:induction false} JoinableByParts(ids: seq<string>, facts: FactStore, style: Style)
    ensures Joinable(ids, facts, style) <==>
      && |ids| > 1 && Presentations.Distinct(ids) && Editable(style) && FirstRefused(facts, ids).None?
      && !exists id :: id in ids && id in facts && facts[id].style != style
  {
    NoneRefused(facts, ids);
  }

  lemma {:induction false} RenderingsSpaced(facts: FactStore, ids: seq<string>, language: Language)
    requires FirstRefused(facts, ids).None?
    ensures var texts := Renderings(facts, ids, language);
      && (texts.Ok? <==> AllSayable(ids, facts, language))
      && (texts.Ok? ==> JoinWords(texts.value) == SpacedTogether(WordingsOf(ids, facts, language)))
  {
    NoneRefused(facts, ids);
    RenderingsAre(facts, ids, language);
    if AllSayable(ids, facts, language) {
      JoinIsSpaced(WordingsOf(ids, facts, language));
    }
  }

  /** The join contract words a claim exactly as its facts' wordings, spaced together. */
  lemma {:induction false} JoinedExactly(
      text: string, ids: seq<string>, facts: FactStore, language: Language, style: Style, rules: Option<Rules>)
    ensures RenderComposite(ids, facts, language, style, CANONICAL_JOIN, rules) == Ok(text) <==>
      && Joinable(ids, facts, style) && AllSayable(ids, facts, language)
      && text == SpacedTogether(WordingsOf(ids, facts, language))
  {
    JoinableByParts(ids, facts, style);
    if FirstRefused(facts, ids).None? {
      RenderingsSpaced(facts, ids, language);
    }
  }

  // ----- one edit -----

  datatype ClaimEdit = ClaimEdit(
    claimId: string, factIds: seq<string>, text: Option<string>, templateId: Option<string>,
    templateVersion: Option<string>)

  function PlainClaim(id: string, style: Style, text: string, factIds: seq<string>, claimType: ClaimType): Claim {
    Claim(id, style, text, factIds, claimType, Sha256(text), None, None, None, None)
  }

  function Explain(error: DraftError): string {
    match error
    case NotOneFact => "extractive derived wording must link exactly one canonical fact"
    case StyleNotEditable => "extractive derived wording requires matching editable styles"
    case NotWholeClauses => "derived wording must preserve complete canonical clauses in order"
    case _ => "the linked fact cannot be used"
  }

  /** The text is the fact's own wording, in the fact's own style. */
  predicate IsCanonicalWording(text: string, factIds: seq<string>, style: Style, facts: FactStore, language: Language) {
    && |factIds| == 1 && Rendering(facts, factIds[0], language) == Ok(text)
    && facts[factIds[0]].style == style
  }

  /** What a text edit makes of a claim that is not the headline. */
  function Rewritten(
      current: Claim, text: string, factIds: seq<string>, facts: FactStore, language: Language, wording: Wording): Claim
  {
    if IsCanonicalWording(text, factIds, current.style, facts, language) then
      PlainClaim(current.claimId, current.style, text, factIds, Canonical)
    else
      match DerivedRefusal(text, factIds, facts, language, current.style, EXTRACTIVE_DERIVATION, None, wording)
      case None =>
        PlainClaim(current.claimId, current.style, text, factIds, Derived).(derivation := Some(EXTRACTIVE_DERIVATION))
      case Some(e) =>
        PlainClaim(current.claimId, current.style, text, factIds, Pending).(pendingReason := Some(Explain(e)))
  }

  function TemplateVersion(edit: ClaimEdit): string {
    match edit.templateVersion
    case Some(version) => if version == "" then CANONICAL_JOIN.version else version
    case None => CANONICAL_JOIN.version
  }

  /** The claim an edit puts in place of `current`. */
  function Replacement(
      current: Claim, isHeadline: bool, edit: ClaimEdit, facts: FactStore, language: Language, wording: Wording)
    : Result<Claim, DraftError>
  {
    match edit.templateId
    case Some(templateId) =>
      if edit.text.Some? then Err(TextAndTemplate)
      else
        var template := Contract(templateId, TemplateVersion(edit));
        (match RenderComposite(edit.factIds, facts, language, current.style, template, None)
         case Err(e) => Err(e)
         case Ok(text) =>
           Ok(PlainClaim(current.claimId, current.style, text, edit.factIds, Composite).(template := Some(template))))
    case None =>
      var edited := wording.strip(if edit.text.Some? then edit.text.value else "");
      if edited == "" then Err(EmptyText)
      else if isHeadline then Ok(PlainClaim(current.claimId, HeadlineStyle, edited, current.factIds, Headline))
      else Ok(Rewritten(current, edited, edit.factIds, facts, language, wording))
  }

  /** One edit of one draft: the named claim exchanged in its place, and the draft resealed. */
  function EditClaim(draft: Draft, edit: ClaimEdit, facts: FactStore, wording: Wording): Result<Draft, DraftError> {
    var claims := DraftClaims(draft.body);
    match SlotOf(claims, edit.claimId)
    case None => Err(UnknownClaim(edit.claimId))
    case Some(slot) =>
      match Replacement(claims[slot], slot == 0, edit, facts, draft.body.language, wording)
      case Err(e) => Err(e)
      case Ok(claim) => Ok(Seal(Rebuild(draft.body, claims[slot := claim])))
  }

  // ----- what an edit says -----

  function TypedText(edit: ClaimEdit, wording: Wording): string {
    wording.strip(if edit.text.Some? then edit.text.value else "")
  }

  /** The text and style are those of the one canonical fact named. */
  predicate FactsOwnWords(text: string, ids: seq<string>, style: Style, facts: FactStore, language: Language) {
    && |ids| == 1 && ids[0] in facts && facts[ids[0]].status.CanonicalFact? && facts[ids[0]].style == style
    && language in facts[ids[0]].renderings && facts[ids[0]].renderings[language] == text && text != ""
  }

  /** The text keeps whole clauses, in order, of the one canonical fact named, in its style. */
  predicate KeepsItsClauses(
      text: string, ids: seq<string>, style: Style, facts: FactStore, language: Language, wording: Wording)
  {
    && |ids| == 1 && ids[0] in facts && facts[ids[0]].status.CanonicalFact? && facts[ids[0]].style == style
    && (style.Paragraph? || style.Bullet? || style.Item?)
    && language in facts[ids[0]].renderings && facts[ids[0]].renderings[language] != ""
    && wording.normalized(text) != ""
    && SomeClauses(wording.normalized(text), wording.clauses(facts[ids[0]].renderings[language]), wording)
  }

  /** Neighbouring clauses, one or more, spaced together, compare equal to this. */
  predicate SomeClauses(normalized: string, clauses: seq<string>, wording: Wording) {
    exists start, end :: 0 <= start < end <= |clauses| &&
      normalized == wording.normalized(SpacedTogether(clauses[start..end]))
  }

  lemma {:induction false} KeepsSomeClauses(text: string, source: string, wording: Wording)
    ensures KeepsClauses(text, source, wording) <==>
      wording.normalized(text) != "" && SomeClauses(wording.normalized(text), wording.clauses(source), wording)
  {
    var clauses := wording.clauses(source);
    forall start, end | 0 <= start < end <= |clauses|
      ensures JoinWords(clauses[start..end]) == SpacedTogether(clauses[start..end])
    {
      JoinIsSpaced(clauses[start..end]);
    }
  }

  /** A typed text as a claim: word for word what was typed. The headline keeps its support;
      any other claim links the facts named, and is canonical, derived or pending by how the
      text stands to them. */
  predicate SaysTyped(
      claim: Claim, current: Claim, isHeadline: bool, edit: ClaimEdit, facts: FactStore, language: Language,
      wording: Wording)
  {
    && claim.text == TypedText(edit, wording) && claim.template.None? && claim.evidence.None?
    && if isHeadline then
         && claim.claimType.Headline? && claim.style.HeadlineStyle? && claim.factIds == current.factIds
         && claim.derivation.None? && claim.pendingReason.None?
       else
         var own := FactsOwnWords(claim.text, edit.factIds, current.style, facts, language);
         var keeps := KeepsItsClauses(claim.text, edit.factIds, current.style, facts, language, wording);
         && claim.style == current.style && claim.factIds == edit.factIds
         && claim.claimType == (if own then Canonical else if keeps then Derived else Pending)
         && claim.derivation == (if !own && keeps then Some(EXTRACTIVE_DERIVATION) else None)
         && (claim.pendingReason.Some? <==> !own && !keeps)
  }

  /** The template an edit names is the join, in the version it names or the current one. */
  predicate NamesJoin(edit: ClaimEdit) {
    && edit.templateId == Some("canonical-renderings")
    && (edit.templateVersion.None? || edit.templateVersion.value in {"", "1.0.0"})
  }

  /** A template edit as a claim: the named facts' own wordings, in the order given. */
  predicate SaysJoined(claim: Claim, current: Claim, edit: ClaimEdit, facts: FactStore, language: Language) {
    && AllSayable(edit.factIds, facts, language)
    && claim.text == SpacedTogether(WordingsOf(edit.factIds, facts, language))
    && claim.claimType.Composite? && claim.style == current.style && claim.factIds == edit.factIds
    && claim.template == Some(Contract("canonical-renderings", "1.0.0"))
    && claim.derivation.None? && claim.pendingReason.None? && claim.evidence.None?
  }

  /** An edit is taken when it types some text, or names the join on facts that may be joined. */
  predicate MayEdit(
      current: Claim, edit: ClaimEdit, facts: FactStore, language: Language, wording: Wording)
  {
    if edit.templateId.Some? then
      && edit.text.None? && NamesJoin(edit)
      && Joinable(edit.factIds, facts, current.style) && AllSayable(edit.factIds, facts, language)
    else TypedText(edit, wording) != ""
  }

  /** `Replacement`, in the edit's own terms. */
  lemma {:induction false} ReplacementSays(
      current: Claim, isHeadline: bool, edit: ClaimEdit, facts: FactStore, language: Language, wording: Wording)
    ensures var made := Replacement(current, isHeadline, edit, facts, language, wording);
      && (made.Ok? <==> MayEdit(current, edit, facts, language, wording))
      && (made.Ok? ==>
            && made.value.claimId == current.claimId && made.value.textHash == Sha256(made.value.text)
            && if edit.templateId.Some? then SaysJoined(made.value, current, edit, facts, language)
               else SaysTyped(made.value, current, isHeadline, edit, facts, language, wording))
  {
    if |edit.factIds| == 1 && edit.factIds[0] in facts && language in facts[edit.factIds[0]].renderings {
      KeepsSomeClauses(TypedText(edit, wording), facts[edit.factIds[0]].renderings[language], wording);
    }
    if edit.templateId.Some? && edit.text.None? {
      var template := Contract(edit.templateId.value, TemplateVersion(edit));
      var text := RenderComposite(edit.factIds, facts, language, current.style, template, None);
      if template == CANONICAL_JOIN {
        JoinedExactly(if text.Ok? then text.value else "", edit.factIds, facts, language, current.style, None);
        if Joinable(edit.factIds, facts, current.style) && AllSayable(edit.factIds, facts, language) {
          JoinedExactly(
            SpacedTogether(WordingsOf(edit.factIds, facts, language)), edit.factIds, facts, language, current.style,
            None);
        }
      }
    }
  }

  /** `apply_claim_edit`, exchanging the claim where the source finds it. */
  method ApplyClaimEdit(draft: Draft, edit: ClaimEdit, facts: FactStore, wording: Wording)
    returns (edited: Result<Draft, DraftError>)
    ensures edited == EditClaim(draft, edit, facts, wording)
    ensures var claims, slot := DraftClaims(draft.body), SlotOf(DraftClaims(draft.body), edit.claimId);
      && (edited.Ok? <==> slot.Some? && MayEdit(claims[slot.value], edit, facts, draft.body.language, wording))
      && (edited.Ok? ==>
            var after := DraftClaims(edited.value.body);
            && |after| == |claims| && edited.value.contentHash == HashOf(edited.value.body)
            && after[slot.value].claimId == edit.claimId
            && after[slot.value].textHash == Sha256(after[slot.value].text)
            && if edit.templateId.Some?
               then SaysJoined(after[slot.value], claims[slot.value], edit, facts, draft.body.language)
               else SaysTyped(
                 after[slot.value], claims[slot.value], slot.value == 0, edit, facts, draft.body.language, wording))
  {
    var slot := FindSlot(DraftClaims(draft.body), edit.claimId);
    if slot.None? {
      return Err(UnknownClaim(edit.claimId));
    }
    var current := DraftClaims(draft.body)[slot.value];
    SlotIsFirst(DraftClaims(draft.body), edit.claimId);
    ReplacementSays(
      current, draft.body.headline.claimId == edit.claimId, edit, facts, draft.body.language, wording);
    var replacement := Replacement(
      current, draft.body.headline.claimId == edit.claimId, edit, facts, draft.body.language, wording);
    if replacement.Err? {
      return Err(replacement.error);
    }
    var body := ReplaceClaimSlot(draft.body, edit.claimId, replacement.value);
    edited := Ok(Seal(body.value));
    RebuiltClaims(draft.body, DraftClaims(draft.body)[slot.value := replacement.value]);
  }

  /** A text edit earns authorization exactly by repeating the fact or keeping its clauses. */
  lemma {:induction false} TextEditIsPendingUnlessSupported(
      current: Claim, text: string, factIds: seq<string>, facts: FactStore, language: Language, wording: Wording)
    ensures Rewritten(current, text, factIds, facts, language, wording).claimType.Pending? <==>
      && !IsCanonicalWording(text, factIds, current.style, facts, language)
      && !(&& |factIds| == 1 && GetCanonical(facts, factIds[0]).Ok? && HasRendering(facts[factIds[0]], language)
           && Editable(current.style) && facts[factIds[0]].style == current.style
           && KeepsClauses(text, facts[factIds[0]].renderings[language], wording))
  {
  }

  // ----- restoring withheld lines -----

  /** Any number of edits, applied in turn; the first refusal ends them. */
  function EditAll(draft: Draft, edits: seq<ClaimEdit>, facts: FactStore, wording: Wording): Result<Draft, DraftError> {
    if edits == [] then Ok(draft)
    else
      match EditAll(draft, edits[..|edits| - 1], facts, wording)
      case Err(e) => Err(e)
      case Ok(d) => EditClaim(d, edits[|edits| - 1], facts, wording)
  }

  function RestoredClaim(claim: Claim, before: seq<Claim>, ids: set<string>): Claim {
    if claim.claimId in ids && Holds(before, claim.claimId) then before[SlotOf(before, claim.claimId).value] else claim
  }

  /** The claims with each named one put back as `before` holds it. */
  function Restored(claims: seq<Claim>, before: seq<Claim>, ids: set<string>): (restored: seq<Claim>)
    ensures |restored| == |claims|
  {
    seq(|claims|, k requires 0 <= k < |claims| => RestoredClaim(claims[k], before, ids))
  }

  /** `restore_claims`: each named claim put back, in whatever order the set is visited.
      It fails only on a claim the original holds and the draft no longer does. */
  method RestoreClaims(draft: Draft, original: Draft, ids: set<string>) returns (restored: Result<Draft, DraftError>)
    requires DistinctIds(DraftClaims(draft.body))
    ensures var before, after := DraftClaims(original.body), DraftClaims(draft.body);
      && (restored.Ok? <==> forall id :: id in ids && Holds(before, id) ==> Holds(after, id))
      && (restored.Ok? ==> restored.value == Seal(Rebuild(draft.body, Restored(after, before, ids))))
  {
    ghost var after := DraftClaims(draft.body);
    var before := DraftClaims(original.body);
    var todo := ids * Ids(before);
    ghost var done: set<string> := {};
    var body := draft.body;
    RebuiltClaims(draft.body, after);
    assert Restored(after, before, {}) == after;
    while todo != {}
      invariant todo !! done && todo + done == ids * Ids(before)
      invariant body == Rebuild(draft.body, Restored(after, before, done))
      invariant forall id :: id in done ==> Holds(after, id)
      decreases todo
    {
      var id :| id in todo;
      SlotIsFirst(before, id);
      RestoreOne(draft.body, before, done, id);
      var replaced := ReplaceClaimSlot(body, id, before[SlotOf(before, id).value]);
      if replaced.None? {
        return Err(UnknownClaim(id));
      }
      body := replaced.value;
      todo, done := todo - {id}, done + {id};
    }
    forall id | id in ids && Holds(before, id) ensures Holds(after, id) {
      SlotIsFirst(before, id);
      assert id in done;
    }
    RestoredByHeldIds(after, before, ids, done);
    restored := Ok(Seal(body));
  }

  lemma {:induction false} RestoredByHeldIds(
      claims: seq<Claim>, before: seq<Claim>, ids: set<string>, held: set<string>)
    requires held == ids * Ids(before)
    ensures Restored(claims, before, held) == Restored(claims, before, ids)
  {
    forall k | 0 <= k < |claims|
      ensures Restored(claims, before, held)[k] == Restored(claims, before, ids)[k]
    {
      SlotIsFirst(before, claims[k].claimId);
    }
  }

  lemma {:induction false} RestoredKeepsIds(claims: seq<Claim>, before: seq<Claim>, ids: set<string>)
    ensures forall k :: 0 <= k < |claims| ==> Restored(claims, before, ids)[k].claimId == claims[k].claimId
  {
    forall k | 0 <= k < |claims| ensures Restored(claims, before, ids)[k].claimId == claims[k].claimId {
      SlotIsFirst(before, claims[k].claimId);
    }
  }

  /** A list's slots are decided by its IDs alone. */
  lemma {:induction false} SlotsByIds(a: seq<Claim>, b: seq<Claim>, id: string)
    requires |a| == |b| && forall k :: 0 <= k < |a| ==> a[k].claimId == b[k].claimId
    ensures SlotOf(a, id) == SlotOf(b, id)
  {
    if a != [] {
      SlotsByIds(a[1..], b[1..], id);
    }
  }

  lemma {:induction false} RestoredOneMore(after: seq<Claim>, before: seq<Claim>, done: set<string>, id: string)
    requires DistinctIds(after) && Holds(before, id) && Holds(after, id)
    ensures Restored(after, before, done)[SlotOf(after, id).value := before[SlotOf(before, id).value]] ==
      Restored(after, before, done + {id})
  {
    SlotIsFirst(after, id);
    var slot := SlotOf(after, id).value;
    forall k | 0 <= k < |after|
      ensures Restored(after, before, done)[slot := before[SlotOf(before, id).value]][k] ==
        Restored(after, before, done + {id})[k]
    {
      assert k != slot ==> after[k].claimId != id;
    }
  }

  lemma {:induction false} RestoreOne(body: DraftBody, before: seq<Claim>, done: set<string>, id: string)
    requires DistinctIds(DraftClaims(body)) && Holds(before, id)
    ensures var after := DraftClaims(body); var current := Rebuild(body, Restored(after, before, done));
      && (Holds(DraftClaims(current), id) <==> Holds(after, id))
      && (Holds(after, id) ==>
            ReplaceClaim(current, id, before[SlotOf(before, id).value]) ==
              Rebuild(body, Restored(after, before, done + {id})))
  {
    var after := DraftClaims(body);
    var claims := Restored(after, before, done);
    RebuiltClaims(body, claims);
    RestoredKeepsIds(after, before, done);
    SlotsByIds(claims, after, id);
    if Holds(after, id) {
      RestoredOneMore(after, before, done, id);
      RebuiltTwice(body, claims, Restored(after, before, done + {id}));
    }
  }

  lemma {:induction false} ReplacementKeepsId(
      current: Claim, isHeadline: bool, edit: ClaimEdit, facts: FactStore, language: Language, wording: Wording)
    ensures var claim := Replacement(current, isHeadline, edit, facts, language, wording);
      claim.Ok? ==> claim.value.claimId == current.claimId
  {
  }

  predicate SameIds(a: seq<Claim>, b: seq<Claim>) {
    |a| == |b| && forall k :: 0 <= k < |a| ==> a[k].claimId == b[k].claimId
  }

  /** The lists agree wherever the first holds a claim outside `ids`. */
  predicate AgreeOutside(a: seq<Claim>, b: seq<Claim>, ids: set<string>) {
    |a| == |b| && forall k :: 0 <= k < |a| && a[k].claimId !in ids ==> b[k] == a[k]
  }

  /** An edit keeps every claim's place and ID, and touches only the claim it names. */
  lemma {:induction false} EditTouchesOneClaim(draft: Draft, edit: ClaimEdit, facts: FactStore, wording: Wording)
    requires EditClaim(draft, edit, facts, wording).Ok?
    ensures var edited := EditClaim(draft, edit, facts, wording).value;
      && SameIds(DraftClaims(draft.body), DraftClaims(edited.body))
      && AgreeOutside(DraftClaims(draft.body), DraftClaims(edited.body), {edit.claimId})
      && edited.body == Rebuild(draft.body, DraftClaims(edited.body))
  {
    var claims := DraftClaims(draft.body);
    SlotIsFirst(claims, edit.claimId);
    var slot := SlotOf(claims, edit.claimId).value;
    ReplacementKeepsId(claims[slot], slot == 0, edit, facts, draft.body.language, wording);
    var claim := Replacement(claims[slot], slot == 0, edit, facts, draft.body.language, wording).value;
    RebuiltClaims(draft.body, claims[slot := claim]);
  }

  /** Edits confined to `ids` leave every other claim, every place and every ID alone. */
  lemma {:induction false} EditsStayConfined(
      draft: Draft, edits: seq<ClaimEdit>, ids: set<string>, facts: FactStore, wording: Wording)
    requires EditAll(draft, edits, facts, wording).Ok?
    requires forall e :: e in edits ==> e.claimId in ids
    ensures var edited := EditAll(draft, edits, facts, wording).value;
      && SameIds(DraftClaims(draft.body), DraftClaims(edited.body))
      && AgreeOutside(DraftClaims(draft.body), DraftClaims(edited.body), ids)
      && edited.body == Rebuild(draft.body, DraftClaims(edited.body))
  {
    RebuiltClaims(draft.body, DraftClaims(draft.body));
    if edits != [] {
      var front, last := edits[..|edits| - 1], edits[|edits| - 1];
      assert last in edits && forall e :: e in front ==> e in edits;
      EditsStayConfined(draft, front, ids, facts, wording);
      var middle := EditAll(draft, front, facts, wording).value;
      EditTouchesOneClaim(middle, last, facts, wording);
      var edited := EditClaim(middle, last, facts, wording).value;
      RebuiltTwice(draft.body, DraftClaims(middle.body), DraftClaims(edited.body));
    }
  }

  /** Whatever edits were made to a set of claims of a sealed draft, restoring that set
      gives back the draft itself, seal included. */
  lemma {:induction false} RestoringUndoesEdits(
      original: Draft, edits: seq<ClaimEdit>, ids: set<string>, facts: FactStore, wording: Wording)
    requires original == Seal(original.body) && DistinctIds(DraftClaims(original.body))
    requires EditAll(original, edits, facts, wording).Ok? && forall e :: e in edits ==> e.claimId in ids
    ensures var edited := EditAll(original, edits, facts, wording).value;
      var before, after := DraftClaims(original.body), DraftClaims(edited.body);
      && DistinctIds(after)
      && (forall id :: id in ids && Holds(before, id) ==> Holds(after, id))
      && Seal(Rebuild(edited.body, Restored(after, before, ids))) == original
  {
    EditsStayConfined(original, edits, ids, facts, wording);
    var edited := EditAll(original, edits, facts, wording).value;
    var before, after := DraftClaims(original.body), DraftClaims(edited.body);
    forall id ensures SlotOf(after, id) == SlotOf(before, id) {
      SlotsByIds(after, before, id);
    }
    forall k | 0 <= k < |after| ensures Restored(after, before, ids)[k] == before[k] {
      SlotIsFirst(before, before[k].claimId);
      assert before[k] in before;
      assert SlotOf(before, before[k].claimId).value == k;
    }
    assert Restored(after, before, ids) == before;
    RebuiltTwice(original.body, after, before);
    RebuiltClaims(original.body, before);
  }
}
