/** The claim rules validation runs over every claim (domain/validation.py: CLAIM_RULES). */
module ClaimRules {
  import opened Wrappers
  import opened Contracts
  import opened ClaimReview
  import opened Drafts

  const REVIEW_POLICY_VERSION := "semantic-claim-support-v1"

  /** What a draft's claims are checked against. */
  datatype Check = Check(
    facts: FactStore, language: Language, rules: Option<Rules>, wording: Wording, reader: TextReader)

  datatype IssueCode =
    | MisplacedHeadline
    | DuplicateClaimId
    | HashMismatch
    | UnlinkedClaim
    | UnsupportedDerived
    | PendingClaim
    | ReviewNotCurrent
    | ReviewProblem
    | CanonicalCardinality
    | InvalidComposite
    | CompositeWording
    | InvalidFactLink
    | CanonicalWording
    | CanonicalStyle

  datatype Issue = Issue(code: IssueCode, claimId: string)

  // ----- when each rule finds fault -----

  function DerivationOf(claim: Claim): Contract {
    if claim.derivation.Some? then claim.derivation.value else Contract("", "")
  }

  function TemplateOf(claim: Claim): Contract {
    if claim.template.Some? then claim.template.value else Contract("", "")
  }

  function ExpectedComposite(claim: Claim, check: Check): Result<string, DraftError> {
    RenderComposite(claim.factIds, check.facts, check.language, claim.style, TemplateOf(claim), check.rules)
  }

  predicate CurrentPolicy(claim: Claim) {
    claim.evidence.Some? && claim.evidence.value.policyVersion == REVIEW_POLICY_VERSION
  }

  predicate LinkResolves(check: Check, id: string) {
    GetCanonical(check.facts, id).Ok?
  }

  /** The rule reported under `code` finds fault with the claim on its own. */
  ghost predicate Faulted(code: IssueCode, claim: Claim, isHeadline: bool, check: Check) {
    match code
    case MisplacedHeadline => !isHeadline && (claim.claimType.Headline? || claim.style.HeadlineStyle?)
    case DuplicateClaimId => false
    case HashMismatch => Sha256(claim.text) != claim.textHash
    case UnlinkedClaim => claim.factIds == [] && !(isHeadline && claim.claimType.Headline?)
    case UnsupportedDerived =>
      claim.claimType.Derived? &&
      DerivedRefusal(claim.text, claim.factIds, check.facts, check.language, claim.style, DerivationOf(claim),
                     check.rules, check.wording).Some?
    case PendingClaim => claim.claimType.Pending?
    case ReviewNotCurrent => claim.claimType.Reviewed? && !CurrentPolicy(claim)
    case ReviewProblem =>
      claim.claimType.Reviewed? && CurrentPolicy(claim) &&
      !Attested(claim, claim.evidence.value.assertions, check.facts, check.language, check.reader)
    case CanonicalCardinality => claim.claimType.Canonical? && |claim.factIds| != 1
    case InvalidComposite => claim.claimType.Composite? && ExpectedComposite(claim, check).Err?
    case CompositeWording =>
      claim.claimType.Composite? && ExpectedComposite(claim, check).Ok? &&
        ExpectedComposite(claim, check).value != claim.text
    case InvalidFactLink => exists id :: id in claim.factIds && !LinkResolves(check, id)
    case CanonicalWording =>
      claim.claimType.Canonical? && exists id ::
        id in claim.factIds && LinkResolves(check, id) && Rendering(check.facts, id, check.language) != Ok(claim.text)
    case CanonicalStyle =>
      claim.claimType.Canonical? && exists id ::
        id in claim.factIds && LinkResolves(check, id) && check.facts[id].style != claim.style
  }

  /** The one way the rules stop instead of reporting: a canonical claim's fact has lost its
      wording in the document's language, and asking for that wording is not guarded. */
  predicate Raises(claim: Claim, check: Check) {
    claim.claimType.Canonical? && exists id ::
      id in claim.factIds && LinkResolves(check, id) && !HasRendering(check.facts[id], check.language)
  }

  ghost predicate Passes(claim: Claim, isHeadline: bool, check: Check) {
    forall code :: !Faulted(code, claim, isHeadline, check)
  }

  // ----- the rules as the source runs them -----

  /** The per-fact rule, with its unguarded lookup. */
  method FactLinkIssues(claim: Claim, check: Check) returns (issues: Result<seq<Issue>, FactError>)
    ensures issues.Err? <==> Raises(claim, check)
    ensures issues.Ok? ==> (issues.value == [] <==>
      && (forall id :: id in claim.factIds ==> LinkResolves(check, id))
      && (claim.claimType.Canonical? ==> forall id :: id in claim.factIds && LinkResolves(check, id) ==>
            Rendering(check.facts, id, check.language) == Ok(claim.text) && check.facts[id].style == claim.style))
  {
    var found: seq<Issue> := [];
    for i := 0 to |claim.factIds|
      invariant claim.claimType.Canonical? ==> forall k :: 0 <= k < i && LinkResolves(check, claim.factIds[k]) ==>
        HasRendering(check.facts[claim.factIds[k]], check.language)
      invariant found == [] <==> forall k :: 0 <= k < i ==>
        && LinkResolves(check, claim.factIds[k])
        && (claim.claimType.Canonical? ==>
              && Rendering(check.facts, claim.factIds[k], check.language) == Ok(claim.text)
              && check.facts[claim.factIds[k]].style == claim.style)
    {
      var id := claim.factIds[i];
      if GetCanonical(check.facts, id).Err? {
        found := found + [Issue(InvalidFactLink, claim.claimId)];
        continue;
      }
      if !claim.claimType.Canonical? {
        continue;
      }
      var expected := Rendering(check.facts, id, check.language);
      if expected.Err? {
        assert id in claim.factIds;
        return Err(expected.error);
      }
      if claim.text != expected.value {
        found := found + [Issue(CanonicalWording, claim.claimId)];
      }
      if claim.style != check.facts[id].style {
        found := found + [Issue(CanonicalStyle, claim.claimId)];
      }
    }
    issues := Ok(found);
  }

  /** The rules that look at one claim and never raise. */
  method WordingIssues(claim: Claim, isHeadline: bool, check: Check) returns (issues: seq<Issue>)
    ensures issues == [] <==>
      forall code :: code != InvalidFactLink && code != CanonicalWording && code != CanonicalStyle ==>
        !Faulted(code, claim, isHeadline, check)
  {
    issues := [];
    if !isHeadline && (claim.claimType.Headline? || claim.style.HeadlineStyle?) {
      issues := issues + [Issue(MisplacedHeadline, claim.claimId)];
      assert Faulted(MisplacedHeadline, claim, isHeadline, check);
    }
    if Sha256(claim.text) != claim.textHash {
      issues := issues + [Issue(HashMismatch, claim.claimId)];
      assert Faulted(HashMismatch, claim, isHeadline, check);
    }
    if claim.factIds == [] && !(isHeadline && claim.claimType.Headline?) {
      issues := issues + [Issue(UnlinkedClaim, claim.claimId)];
      assert Faulted(UnlinkedClaim, claim, isHeadline, check);
    }
    if claim.claimType.Pending? {
      issues := issues + [Issue(PendingClaim, claim.claimId)];
      assert Faulted(PendingClaim, claim, isHeadline, check);
    }
    if claim.claimType.Canonical? && |claim.factIds| != 1 {
      issues := issues + [Issue(CanonicalCardinality, claim.claimId)];
      assert Faulted(CanonicalCardinality, claim, isHeadline, check);
    }
    var contract := ContractIssues(claim, isHeadline, check);
    issues := issues + contract;
  }

  /** The rules that hold a claim's wording to the contract it names. */
  method ContractIssues(claim: Claim, isHeadline: bool, check: Check) returns (issues: seq<Issue>)
    ensures issues == [] <==>
      && !Faulted(UnsupportedDerived, claim, isHeadline, check)
      && !Faulted(ReviewNotCurrent, claim, isHeadline, check) && !Faulted(ReviewProblem, claim, isHeadline, check)
      && !Faulted(InvalidComposite, claim, isHeadline, check) && !Faulted(CompositeWording, claim, isHeadline, check)
  {
    issues := [];
    match claim.claimType
    case Derived =>
      var refusal := DerivedRefusal(
        claim.text, claim.factIds, check.facts, check.language, claim.style, DerivationOf(claim), check.rules,
        check.wording);
      if refusal.Some? {
        issues := [Issue(UnsupportedDerived, claim.claimId)];
      }
    case Reviewed =>
      if !CurrentPolicy(claim) {
        return [Issue(ReviewNotCurrent, claim.claimId)];
      }
      var problems := ReviewProblems(
        claim, claim.evidence.value.assertions, check.facts, check.language, check.reader);
      if problems != [] {
        issues := [Issue(ReviewProblem, claim.claimId)];
      }
    case Composite =>
      var expected := ExpectedComposite(claim, check);
      if expected.Err? {
        issues := [Issue(InvalidComposite, claim.claimId)];
      } else if expected.value != claim.text {
        issues := [Issue(CompositeWording, claim.claimId)];
      }
    case _ =>
  }

  /** One claim's findings: none exactly when it passes every rule. */
  method ClaimIssues(claim: Claim, isHeadline: bool, check: Check) returns (issues: Result<seq<Issue>, FactError>)
    ensures issues.Err? <==> Raises(claim, check)
    ensures issues.Ok? ==> (issues.value == [] <==> Passes(claim, isHeadline, check))
  {
    var wording := WordingIssues(claim, isHeadline, check);
    var links := FactLinkIssues(claim, check);
    if links.Err? {
      return links;
    }
    assert Passes(claim, isHeadline, check) ==>
      && !Faulted(InvalidFactLink, claim, isHeadline, check)
      && !Faulted(CanonicalWording, claim, isHeadline, check) && !Faulted(CanonicalStyle, claim, isHeadline, check);
    issues := Ok(wording + links.value);
  }

  /** Every claim through every rule, with the set of IDs already seen: no finding exactly
      when every claim passes and no ID is used twice. */
  method ClaimsAreValid(claims: seq<Claim>, check: Check) returns (issues: Result<seq<Issue>, FactError>)
    ensures issues.Err? <==> exists c :: c in claims && Raises(c, check)
    ensures issues.Ok? ==> (issues.value == [] <==>
      DistinctIds(claims) && forall k :: 0 <= k < |claims| ==> Passes(claims[k], k == 0, check))
  {
    var found: seq<Issue> := [];
    var seen: set<string> := {};
    for k := 0 to |claims|
      invariant seen == Ids(claims[..k])
      invariant forall j :: 0 <= j < k ==> !Raises(claims[j], check)
      invariant found == [] <==> DistinctIds(claims[..k]) && forall j :: 0 <= j < k ==> Passes(claims[j], j == 0, check)
    {
      OneMoreId(claims, k);
      if claims[k].claimId in seen {
        found := found + [Issue(DuplicateClaimId, claims[k].claimId)];
      }
      seen := seen + {claims[k].claimId};
      var own := ClaimIssues(claims[k], k == 0, check);
      if own.Err? {
        return Err(own.error);
      }
      found := found + own.value;
    }
    assert claims[..|claims|] == claims;
    issues := Ok(found);
  }

  lemma {:induction false} OneMoreId(claims: seq<Claim>, k: nat)
    requires k < |claims|
    ensures Ids(claims[..k + 1]) == Ids(claims[..k]) + {claims[k].claimId}
    ensures DistinctIds(claims[..k + 1]) <==> DistinctIds(claims[..k]) && claims[k].claimId !in Ids(claims[..k])
  {
    assert claims[..k + 1] == claims[..k] + [claims[k]];
    var longer := claims[..k + 1];
    if DistinctIds(longer) {
      assert forall i :: 0 <= i < k ==> longer[i].claimId != longer[k].claimId;
      assert forall i, j :: 0 <= i < j < k ==> longer[i].claimId != longer[j].claimId;
    }
  }

  // ----- what editing and validating agree on -----

  /** A claim an edit leaves outside the headline either passes every claim rule, with or
      without presentations at hand, or is pending and fails; and checking it never raises. */
  lemma {:induction false} EditedClaimPassesUnlessPending(current: Claim, edit: ClaimEdit, claim: Claim, check: Check)
    requires !current.style.HeadlineStyle?
    requires Replacement(current, false, edit, check.facts, check.language, check.wording) == Ok(claim)
    ensures claim.claimType in {Canonical, Derived, Composite, Pending}
    ensures Passes(claim, false, check) <==> !claim.claimType.Pending?
    ensures !Raises(claim, check)
  {
    if claim.claimType.Composite? {
      NoneRefused(check.facts, claim.factIds);
      RenderingsResolve(check.facts, claim.factIds, check.language);
    }
    if claim.claimType.Pending? {
      assert Faulted(PendingClaim, claim, false, check);
    }
  }

  lemma {:induction false} RenderingsResolve(facts: FactStore, factIds: seq<string>, language: Language)
    ensures Renderings(facts, factIds, language).Ok? ==>
      forall id :: id in factIds ==> GetCanonical(facts, id).Ok? && HasRendering(facts[id], language)
  {
    if factIds != [] {
      RenderingsResolve(facts, factIds[1..], language);
      assert factIds == [factIds[0]] + factIds[1..];
    }
  }

  // ----- a fact that loses its wording -----

  /** A canonical claim that passes one day: asked again against later facts, the rules stop
      instead of reporting exactly when its fact still resolves and has lost its wording in
      the document's language. */
  lemma {:induction false} PassedClaimRaisesExactly(claim: Claim, check: Check, later: FactStore)
    requires claim.claimType.Canonical? && Passes(claim, false, check)
    ensures |claim.factIds| == 1
    ensures Raises(claim, check.(facts := later)) <==>
      GetCanonical(later, claim.factIds[0]).Ok? && !HasRendering(later[claim.factIds[0]], check.language)
  {
    assert !Faulted(CanonicalCardinality, claim, false, check);
    assert claim.factIds[0] in claim.factIds;
  }

  /** Such a claim exists: an English bullet whose fact then keeps only other wordings. */
  lemma {:induction false} LostWordingRaises(reader: TextReader, wording: Wording)
    returns (claim: Claim, check: Check, later: FactStore)
    ensures claim.claimType.Canonical? && Passes(claim, false, check) && Raises(claim, check.(facts := later))
  {
    var fact := Fact("f", "built", map[En := "built"], [], CanonicalFact, None, None, "base/common.json", Bullet);
    claim := PlainClaim("c", Bullet, "built", ["f"], Canonical);
    check := Check(map["f" := fact], En, None, wording, reader);
    later := map["f" := fact.(renderings := map[])];
    assert claim.factIds[0] == "f";
    PassedClaimRaisesExactly(claim, check, later);
  }

  // ----- promoting a pending claim after review -----

  /** `authorize_reviewed_claim`: only linked, pending, evidence-styled wording may be promoted. */
  function Authorize(claim: Claim, facts: FactStore, evidence: Evidence): Option<Claim> {
    if !claim.claimType.Pending? || claim.factIds == [] || !Editable(claim.style)
       || FirstRefused(facts, claim.factIds).Some?
    then None
    else Some(PlainClaim(claim.claimId, claim.style, claim.text, claim.factIds, Reviewed).(evidence := Some(evidence)))
  }

  /** Only pending, linked wording of an evidence style, on facts that all resolve, is promoted -
      and then nothing of it changes but what authorizes it. */
  lemma {:induction false} AuthorizedExactly(claim: Claim, facts: FactStore, evidence: Evidence)
    ensures Authorize(claim, facts, evidence).Some? <==>
      && claim.claimType.Pending? && claim.factIds != []
      && (claim.style.Paragraph? || claim.style.Bullet? || claim.style.Item?)
      && forall id :: id in claim.factIds ==> id in facts && facts[id].status.CanonicalFact?
    ensures Authorize(claim, facts, evidence).Some? ==>
      Authorize(claim, facts, evidence).value == Claim(
        claim.claimId, claim.style, claim.text, claim.factIds, Reviewed, Sha256(claim.text), None, None, None,
        Some(evidence))
  {
    NoneRefused(facts, claim.factIds);
  }

  /** A promoted claim passes the rules exactly while its evidence, under the current
      policy, attests it: nothing but the evidence authorizes the wording. */
  lemma {:induction false} ReviewedClaimPassesWhileAttested(
      claim: Claim, evidence: Evidence, promoted: Claim, check: Check)
    requires Authorize(claim, check.facts, evidence) == Some(promoted)
    ensures Passes(promoted, false, check) <==>
      evidence.policyVersion == REVIEW_POLICY_VERSION
      && Attested(promoted, evidence.assertions, check.facts, check.language, check.reader)
  {
    NoneRefused(check.facts, claim.factIds);
    if Passes(promoted, false, check) {
      assert !Faulted(ReviewNotCurrent, promoted, false, check);
      assert !Faulted(ReviewProblem, promoted, false, check);
    }
  }
}
