/** The document's basis and the states derived from it (domain/document.py). Every state is
    computed from the stored stamps and what the document and its facts are now. */
module DocumentState {
  import opened Wrappers
  import opened Contracts
  import opened FactDigests

  /** What a digest may cover; two digests are equal only when they cover the same. */
  datatype Digest =
    | OfDocument(analysis: string, content: Option<Draft>, template: Option<string>)
    | OfBasis(document: Digest, facts: FactsDigest)
    | InTemplate(basis: Digest, name: string)

  datatype Document = Document(
    analysis: string,
    content: Option<Draft>,
    template: Option<string>,
    checkedBasis: Option<Digest>,
    passed: Option<bool>,
    approvedBasis: Option<Digest>,
    renderedBasis: Option<Digest>,
    files: Option<string>,
    renderError: Option<Digest>)

  /** The concurrency token. */
  function HashOfDocument(document: Document): Digest {
    OfDocument(document.analysis, document.content, document.template)
  }

  function FactIdsOf(claims: seq<Claim>): seq<string> {
    if claims == [] then [] else claims[0].factIds + FactIdsOf(claims[1..])
  }

  /** The facts a document depends on: every fact its claims link. */
  function Dependents(content: Option<Draft>): seq<string> {
    match content
    case None => []
    case Some(draft) => FactIdsOf(DraftClaims(draft.body))
  }

  /** What the check and the approval vouch for: content, analysis and facts, not template. */
  function BasisOf(analysis: string, content: Option<Draft>, facts: FactStore): Digest {
    OfBasis(OfDocument(analysis, content, None), DigestOf(Dependents(content), facts))
  }

  function Basis(document: Document, facts: FactStore): Digest {
    BasisOf(document.analysis, document.content, facts)
  }

  /** What a render vouches for: the basis in the document's template. */
  function RenderBasis(template: Option<string>, basis: Digest): Digest {
    match template
    case None => basis
    case Some(name) => InTemplate(basis, name)
  }

  datatype State = NoDocument | InDraft | Approved | Ready

  function StateOf(document: Option<Document>, basis: Option<Digest>): State {
    match document
    case None => NoDocument
    case Some(d) =>
      if basis.None? || d.approvedBasis != basis then InDraft
      else if d.renderedBasis == Some(RenderBasis(d.template, basis.value)) then Ready
      else Approved
  }

  datatype Check = NotChecked | Outdated | Failed | Passed

  function CheckOf(document: Option<Document>, basis: Option<Digest>): Check {
    match document
    case None => NotChecked
    case Some(d) =>
      if d.content.None? || d.checkedBasis.None? then NotChecked
      else if d.checkedBasis != basis then Outdated
      else if d.passed == Some(true) then Passed
      else Failed
  }

  datatype Preparation = NeedsAnalysis | ReadyToDraft | DraftInProgress | ApprovedToRender | ReadyToSend

  function PreparationOf(document: Option<Document>, basis: Option<Digest>): Preparation {
    match document
    case None => NeedsAnalysis
    case Some(d) =>
      if d.content.None? then ReadyToDraft
      else
        match StateOf(document, basis)
        case Ready => ReadyToSend
        case Approved => ApprovedToRender
        case _ => DraftInProgress
  }

  /** All a reader sees of a document, given the facts as they are. */
  datatype Views = Views(state: State, check: Check, preparation: Preparation, reviewed: bool)

  function ViewsOf(document: Option<Document>, facts: FactStore): Views {
    var basis := if document.Some? then Some(Basis(document.value, facts)) else None;
    Views(StateOf(document, basis), CheckOf(document, basis), PreparationOf(document, basis),
          document.None? || ReviewReasons(document.value.content, facts) == [])
  }

  // ----- review reasons -----

  datatype Reason = PendingFactReason | DeletedFactReason

  predicate AnyWithStatus(ids: seq<string>, facts: FactStore, status: FactStatus) {
    exists k :: 0 <= k < |ids| && ids[k] in facts && facts[ids[k]].status == status
  }

  /** A dependent fact that still resolves but is pending or deleted blocks the document. */
  function ReviewReasons(content: Option<Draft>, facts: FactStore): seq<Reason> {
    (if AnyWithStatus(Dependents(content), facts, PendingFact) then [PendingFactReason] else [])
    + (if AnyWithStatus(Dependents(content), facts, DeletedFact) then [DeletedFactReason] else [])
  }

  // ----- which facts a document depends on -----

  /** Some claim of the document links the fact: its headline, a contact, or a section's line. */
  predicate LinkedIn(body: DraftBody, id: string) {
    || id in body.headline.factIds
    || (exists c :: c in body.contacts && id in c.factIds)
    || exists s :: s in body.sections && LinkedInLines(s.claims, id)
  }

  predicate LinkedInLines(claims: seq<Claim>, id: string) {
    exists c :: c in claims && id in c.factIds
  }

  lemma {:induction false} FactIdsExactly(claims: seq<Claim>, id: string)
    ensures id in FactIdsOf(claims) <==> LinkedInLines(claims, id)
  {
    if claims != [] {
      FactIdsExactly(claims[1..], id);
      assert claims == [claims[0]] + claims[1..];
    }
  }

  lemma {:induction false} SectionLinks(sections: seq<Section>, id: string)
    ensures LinkedInLines(SectionClaims(sections), id) <==>
      exists s :: s in sections && LinkedInLines(s.claims, id)
  {
    if sections != [] {
      SectionLinks(sections[1..], id);
      assert sections == [sections[0]] + sections[1..];
      LinksOfBoth(sections[0].claims, SectionClaims(sections[1..]), id);
    }
  }

  lemma {:induction false} LinksOfBoth(a: seq<Claim>, b: seq<Claim>, id: string)
    ensures LinkedInLines(a + b, id) <==> LinkedInLines(a, id) || LinkedInLines(b, id)
  {
  }

  /** A document depends on exactly the facts its claims link. */
  lemma {:induction false} DependentsExactly(content: Option<Draft>, id: string)
    ensures id in Dependents(content) <==> content.Some? && LinkedIn(content.value.body, id)
  {
    if content.Some? {
      var body := content.value.body;
      FactIdsExactly(DraftClaims(body), id);
      SectionLinks(body.sections, id);
      LinksOfBoth([body.headline] + body.contacts, SectionClaims(body.sections), id);
      LinksOfBoth([body.headline], body.contacts, id);
      assert LinkedInLines([body.headline], id) <==> id in body.headline.factIds by {
        assert [body.headline][0] == body.headline;
      }
    }
  }

  /** A review reason names exactly the status of some linked fact that still resolves. */
  lemma {:induction false} ReasonsExactly(content: Option<Draft>, facts: FactStore)
    ensures PendingFactReason in ReviewReasons(content, facts) <==>
      exists id :: id in facts && facts[id].status.PendingFact? && content.Some? && LinkedIn(content.value.body, id)
    ensures DeletedFactReason in ReviewReasons(content, facts) <==>
      exists id :: id in facts && facts[id].status.DeletedFact? && content.Some? && LinkedIn(content.value.body, id)
  {
    StatusExactly(content, facts, PendingFact);
    StatusExactly(content, facts, DeletedFact);
  }

  /** A reader sees a document as needing no review exactly when no linked fact is pending or deleted. */
  lemma {:induction false} ReviewedExactly(document: Document, facts: FactStore)
    ensures ViewsOf(Some(document), facts).reviewed <==>
      document.content.Some? ==> forall id :: id in facts && LinkedIn(document.content.value.body, id) ==>
        facts[id].status.CanonicalFact?
  {
    StatusExactly(document.content, facts, PendingFact);
    StatusExactly(document.content, facts, DeletedFact);
  }

  lemma {:induction false} StatusExactly(content: Option<Draft>, facts: FactStore, status: FactStatus)
    ensures AnyWithStatus(Dependents(content), facts, status) <==>
      exists id :: id in facts && facts[id].status == status && content.Some? && LinkedIn(content.value.body, id)
  {
    forall id
      ensures id in Dependents(content) <==> content.Some? && LinkedIn(content.value.body, id)
    {
      DependentsExactly(content, id);
    }
    if id :| id in facts && facts[id].status == status && content.Some? && LinkedIn(content.value.body, id) {
      var k :| 0 <= k < |Dependents(content)| && Dependents(content)[k] == id;
    }
  }

  // ----- what the basis sees -----

  /** The basis moves exactly with the analysis, the content, or what a dependent fact says. */
  lemma {:induction false} BasisIsExact(d: Document, f: FactStore, e: Document, g: FactStore)
    requires Keyed(f) && Keyed(g)
    ensures Basis(d, f) == Basis(e, g) <==>
      d.analysis == e.analysis && d.content == e.content && Agree(Dependents(d.content), f, g)
  {
    DigestIsExact(Dependents(d.content), f, Dependents(e.content), g);
  }

  lemma {:induction false} ReasonsFollowFacts(content: Option<Draft>, f: FactStore, g: FactStore)
    requires Agree(Dependents(content), f, g)
    ensures ReviewReasons(content, f) == ReviewReasons(content, g)
  {
    SameStatuses(Dependents(content), f, g, PendingFact);
    SameStatuses(Dependents(content), f, g, DeletedFact);
  }

  lemma {:induction false} SameStatuses(ids: seq<string>, f: FactStore, g: FactStore, status: FactStatus)
    requires Agree(ids, f, g)
    ensures AnyWithStatus(ids, f, status) == AnyWithStatus(ids, g, status)
  {
    forall k | 0 <= k < |ids|
      ensures (ids[k] in f && f[ids[k]].status == status) <==> (ids[k] in g && g[ids[k]].status == status)
    {
      assert ids[k] in ids;
    }
  }

  /** A fact no claim links moves nothing a reader sees. */
  lemma {:induction false} OtherFactsMoveNothing(document: Option<Document>, f: FactStore, g: FactStore)
    requires Keyed(f) && Keyed(g)
    requires document.Some? ==> Agree(Dependents(document.value.content), f, g)
    ensures ViewsOf(document, f) == ViewsOf(document, g)
  {
    if document.Some? {
      BasisIsExact(document.value, f, document.value, g);
      ReasonsFollowFacts(document.value.content, f, g);
    }
  }

  /** An approval or a render survives a change of facts exactly when no dependent fact's
      state is other than it was. */
  lemma {:induction false} ApprovalFollowsDependents(d: Document, f: FactStore, g: FactStore)
    requires Keyed(f) && Keyed(g) && StateOf(Some(d), Some(Basis(d, f))) in {Approved, Ready}
    ensures StateOf(Some(d), Some(Basis(d, g))) in {Approved, Ready} <==> Agree(Dependents(d.content), f, g)
    ensures Agree(Dependents(d.content), f, g) ==>
      StateOf(Some(d), Some(Basis(d, g))) == StateOf(Some(d), Some(Basis(d, f)))
  {
    BasisIsExact(d, f, d, g);
  }

  /** A change of template never touches approval or check. An approved document is then
      Ready exactly when its last render was of this content in that template, so putting the
      template back brings the render back. */
  lemma {:induction false} TemplateMovesOnlyTheRender(d: Document, template: Option<string>, facts: FactStore)
    ensures var e := d.(template := template);
            && Basis(e, facts) == Basis(d, facts)
            && CheckOf(Some(e), Some(Basis(e, facts))) == CheckOf(Some(d), Some(Basis(d, facts)))
            && (StateOf(Some(d), Some(Basis(d, facts))).Ready? ==>
                  StateOf(Some(e), Some(Basis(e, facts))) == if template == d.template then Ready else Approved)
            && (StateOf(Some(d), Some(Basis(d, facts))).Approved? ==>
                  (StateOf(Some(e), Some(Basis(e, facts))).Ready? <==>
                     d.renderedBasis == Some(RenderBasis(template, Basis(d, facts)))))
            && StateOf(Some(e.(template := d.template)), Some(Basis(e.(template := d.template), facts))) ==
                 StateOf(Some(d), Some(Basis(d, facts)))
            && (StateOf(Some(d), Some(Basis(d, facts))).InDraft? <==> StateOf(Some(e), Some(Basis(e, facts))).InDraft?)
  {
  }
}
