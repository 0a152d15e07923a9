/** The values the domain modules share: facts, Profiles, claims and drafts
    (domain/contracts, domain/facts.py). A hash is an injective constructor. */
module Contracts {
  import opened Wrappers

  datatype Language = En | He

  // ----- facts -----

  datatype FactStatus = PendingFact | CanonicalFact | DeletedFact

  datatype Style = Paragraph | Heading | Date | Bullet | Item | Contact | HeadlineStyle

  datatype Fact = Fact(
    factId: string,
    meaning: string,
    renderings: map<Language, string>,
    tags: seq<string>,
    status: FactStatus,
    effectiveDates: Option<string>,
    supersedes: Option<string>,
    sourceFile: string,
    style: Style)

  type FactStore = map<string, Fact>

  datatype FactError =
    | UnknownFact(factId: string)
    | NotCanonical(factId: string)
    | NoRendering(factId: string, language: Language)

  function GetCanonical(facts: FactStore, factId: string): Result<Fact, FactError> {
    if factId !in facts then Err(UnknownFact(factId))
    else if !facts[factId].status.CanonicalFact? then Err(NotCanonical(factId))
    else Ok(facts[factId])
  }

  /** An empty rendering is as missing as none. */
  predicate HasRendering(fact: Fact, language: Language) {
    language in fact.renderings && fact.renderings[language] != ""
  }

  predicate CanSay(facts: FactStore, id: string, language: Language) {
    id in facts && language in facts[id].renderings && facts[id].renderings[language] != ""
  }

  /** The fact is canonical and has a wording in the language. */
  predicate CanBeSaid(facts: FactStore, id: string, language: Language) {
    CanSay(facts, id, language) && facts[id].status.CanonicalFact?
  }

  function Rendering(facts: FactStore, factId: string, language: Language): Result<string, FactError> {
    var fact :- GetCanonical(facts, factId);
    if HasRendering(fact, language) then Ok(fact.renderings[language])
    else Err(NoRendering(factId, language))
  }

  /** A historical job title opens a role block. */
  const ROLE_BLOCK_TAG := "historical-title"

  predicate IsRoleTitle(facts: FactStore, factId: string) {
    factId in facts && ROLE_BLOCK_TAG in facts[factId].tags
  }

  // ----- Profiles -----

  datatype SectionSpec = SectionSpec(
    nameEn: string,
    nameHe: string,
    factIds: seq<string>,
    pinnedFactIds: seq<string>,
    minClaimsPerRole: nat,
    optional: bool)

  datatype Profile = Profile(profileId: string, headline: string, sections: seq<SectionSpec>)

  function LocalName(spec: SectionSpec, language: Language): string {
    match language
    case En => spec.nameEn
    case He => spec.nameHe
  }

  /** The spec a section name stands for; of two specs with one name the later counts. */
  function SpecNamed(specs: seq<SectionSpec>, language: Language, name: string): Option<SectionSpec> {
    if specs == [] then None
    else
      var last := specs[|specs| - 1];
      if LocalName(last, language) == name then Some(last)
      else SpecNamed(specs[..|specs| - 1], language, name)
  }

  /** The name a section has in a document of this language. */
  predicate HasName(spec: SectionSpec, language: Language, name: string) {
    if language.He? then spec.nameHe == name else spec.nameEn == name
  }

  lemma {:induction false} SpecNamedExactly(specs: seq<SectionSpec>, language: Language, name: string)
    ensures SpecNamed(specs, language, name).None? <==> forall spec :: spec in specs ==> !HasName(spec, language, name)
    ensures SpecNamed(specs, language, name).Some? ==> exists k ::
      && 0 <= k < |specs| && specs[k] == SpecNamed(specs, language, name).value && HasName(specs[k], language, name)
      && forall j :: k < j < |specs| ==> !HasName(specs[j], language, name)
  {
    if specs != [] {
      var front, last := specs[..|specs| - 1], specs[|specs| - 1];
      SpecNamedExactly(front, language, name);
      assert specs == front + [last];
      assert HasName(last, language, name) <==> LocalName(last, language) == name;
      if !HasName(last, language, name) && SpecNamed(front, language, name).Some? {
        var k :| 0 <= k < |front| && front[k] == SpecNamed(front, language, name).value
                 && HasName(front[k], language, name)
                 && forall j :: k < j < |front| ==> !HasName(front[j], language, name);
        assert specs[k] == front[k];
      }
    }
  }

  // ----- claims and drafts -----

  datatype ClaimType = Canonical | Composite | Derived | Reviewed | Pending | Headline

  datatype TextHash = Sha256(text: string)

  datatype Contract = Contract(id: string, version: string)

  datatype Assertion = Assertion(claimQuote: string, factIds: seq<string>, sourceQuotes: seq<string>)

  datatype Evidence = Evidence(policyVersion: string, assertions: seq<Assertion>)

  datatype Claim = Claim(
    claimId: string,
    style: Style,
    text: string,
    factIds: seq<string>,
    claimType: ClaimType,
    textHash: TextHash,
    template: Option<Contract>,
    derivation: Option<Contract>,
    pendingReason: Option<string>,
    evidence: Option<Evidence>)

  datatype Section = Section(name: string, claims: seq<Claim>)

  /** Everything a draft says, and what it was built from; all of it is hashed. */
  datatype DraftBody = DraftBody(
    provenance: string,
    language: Language,
    name: string,
    headline: Claim,
    contacts: seq<Claim>,
    sections: seq<Section>)

  datatype ContentHash = Unsealed | HashOf(body: DraftBody)

  datatype Draft = Draft(body: DraftBody, contentHash: ContentHash)

  function Seal(body: DraftBody): Draft {
    Draft(body, HashOf(body))
  }

  /** Headings, dates and contact lines are structure, not evidence. */
  predicate Structural(style: Style) {
    style.Heading? || style.Date? || style.Contact?
  }

  predicate Editable(style: Style) {
    style.Paragraph? || style.Bullet? || style.Item?
  }

  function SectionClaims(sections: seq<Section>): seq<Claim> {
    if sections == [] then [] else sections[0].claims + SectionClaims(sections[1..])
  }

  /** Every claim in one document, headline and contacts first. */
  function DraftClaims(body: DraftBody): seq<Claim> {
    [body.headline] + body.contacts + SectionClaims(body.sections)
  }

  predicate DistinctIds(claims: seq<Claim>) {
    forall i, j :: 0 <= i < j < |claims| ==> claims[i].claimId != claims[j].claimId
  }

  /** No two section lines of a document share a claim ID. */
  predicate UniqueLineIds(sections: seq<Section>) {
    DistinctIds(SectionClaims(sections))
  }

  function Ids(claims: seq<Claim>): set<string> {
    set c | c in claims :: c.claimId
  }
}
