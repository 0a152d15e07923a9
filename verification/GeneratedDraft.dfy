/** What the claim rules say of a whole generated draft (domain/drafts.py: build_draft;
    domain/validation.py: CLAIM_RULES). */
module GeneratedDraft {
  import opened Wrappers
  import opened Contracts
  import opened Presentations
  import opened Frame
  import opened Generation
  import ClaimRules
  import Drafts
  import Narrowing

  predicate InSome(c: Claim, claims: seq<seq<Claim>>) {
    exists i :: 0 <= i < |claims| && c in claims[i]
  }

  /** Leaving out empty sections loses no claim. */
  lemma {:induction false} AssembledClaims(
      specs: seq<SectionSpec>, claims: seq<seq<Claim>>, language: Language, c: Claim)
    requires |specs| == |claims|
    ensures c in SectionClaims(Assemble(specs, claims, language)) <==> InSome(c, claims)
  {
    if specs != [] {
      var last := |specs| - 1;
      AssembledClaims(specs[..last], claims[..last], language, c);
      var section := Section(LocalName(specs[last], language), claims[last]);
      Narrowing.SectionClaimsConcat(Assemble(specs[..last], claims[..last], language), [section]);
      assert SectionClaims([section]) == claims[last] by {
        assert claims[last] + [] == claims[last] && [section][1..] == [];
      }
      InSomeSplits(c, claims);
    }
  }

  lemma {:induction false} InSomeSplits(c: Claim, claims: seq<seq<Claim>>)
    requires claims != []
    ensures InSome(c, claims) <==> InSome(c, claims[..|claims| - 1]) || c in claims[|claims| - 1]
  {
    var front := claims[..|claims| - 1];
    assert forall i :: 0 <= i < |front| ==> front[i] == claims[i];
  }

  // ----- the headline -----

  /** The titles that support the headline all resolve. */
  lemma {:induction false} SupportResolves(
      profile: Profile, facts: FactStore, language: Language, chosen: Option<map<string, set<string>>>)
    ensures var support := Titles(Flatten(Layouts(profile.sections, facts, language, chosen)), facts);
            forall id :: id in support ==> GetCanonical(facts, id).Ok?
  {
    SupportIsTitles(profile.sections, facts, language, chosen);
  }

  lemma {:induction false} HeadlinePasses(
      profile: Profile, support: seq<string>, naming: Claim -> string, check: ClaimRules.Check)
    requires forall id :: id in support ==> GetCanonical(check.facts, id).Ok?
    ensures ClaimRules.Passes(HeadlineFor(profile, support, naming), true, check)
    ensures !ClaimRules.Raises(HeadlineFor(profile, support, naming), check)
  {
  }

  // ----- the draft -----

  predicate EveryLineWellWorded(
      lines: seq<seq<PresentedClaim>>, rules: seq<Rule>, facts: FactStore, language: Language, wording: Drafts.Wording)
  {
    forall i :: 0 <= i < |lines| ==>
      forall line :: line in lines[i] ==> WellWorded(line, rules, facts, language, wording)
  }

  /** What `BuildDraft` makes of laid-out lines. */
  predicate BuiltFrom(
      body: DraftBody, lines: seq<seq<PresentedClaim>>, profile: Profile, facts: FactStore, language: Language,
      emphasis: string, rules: seq<Rule>, chosen: Option<map<string, set<string>>>, naming: Claim -> string)
  {
    var layouts := Layouts(profile.sections, facts, language, chosen);
    && PresentsLayouts(lines, layouts, profile, facts, language, emphasis, rules)
    && body.headline == HeadlineFor(profile, Titles(Flatten(layouts), facts), naming)
    && body.sections == Assemble(profile.sections, AllClaims(lines, naming), language)
  }

  ghost predicate AllPass(claims: seq<Claim>, check: ClaimRules.Check) {
    forall c :: c in claims ==> ClaimRules.Passes(c, false, check)
  }

  predicate NoneRaises(claims: seq<Claim>, check: ClaimRules.Check) {
    forall c :: c in claims ==> !ClaimRules.Raises(c, check)
  }

  lemma {:induction false} SectionPassesExactly(
      lines: seq<PresentedClaim>, request: Request, naming: Claim -> string, check: ClaimRules.Check)
    requires Coherent(request.rules, request.facts) && forall line :: line in lines ==> Says(line, request)
    requires ChecksAgainst(check, request.rules, request.facts, request.language)
    ensures AllPass(ToClaims(lines, naming), check) <==>
      forall line :: line in lines ==>
        WellWorded(line, request.rules, request.facts, request.language, check.wording)
    ensures NoneRaises(ToClaims(lines, naming), check)
  {
    var claims := ToClaims(lines, naming);
    forall k | 0 <= k < |lines|
      ensures ClaimRules.Passes(claims[k], false, check) <==>
        WellWorded(lines[k], request.rules, request.facts, request.language, check.wording)
      ensures !ClaimRules.Raises(claims[k], check)
    {
      assert lines[k] in lines;
      GeneratedClaimPassesExactly(lines[k], request, naming, check);
    }
    forall line | line in lines
      ensures exists k :: 0 <= k < |lines| && line == lines[k] && claims[k] in claims
    {
      var k :| 0 <= k < |lines| && line == lines[k];
      assert claims[k] in claims;
    }
  }

  lemma {:induction false} SectionsPassExactly(
      body: DraftBody, lines: seq<seq<PresentedClaim>>, profile: Profile, facts: FactStore, language: Language,
      emphasis: string, rules: seq<Rule>, chosen: Option<map<string, set<string>>>, naming: Claim -> string,
      check: ClaimRules.Check)
    requires Coherent(rules, facts) && ChecksAgainst(check, rules, facts, language)
    requires BuiltFrom(body, lines, profile, facts, language, emphasis, rules, chosen, naming)
    ensures AllPass(SectionClaims(body.sections), check) <==>
      EveryLineWellWorded(lines, rules, facts, language, check.wording)
    ensures NoneRaises(SectionClaims(body.sections), check)
  {
    var claims := AllClaims(lines, naming);
    forall c: Claim
      ensures c in SectionClaims(body.sections) <==> InSome(c, claims)
    {
      AssembledClaims(profile.sections, claims, language, c);
    }
    forall i | 0 <= i < |lines|
      ensures AllPass(claims[i], check) <==>
        forall line :: line in lines[i] ==> WellWorded(line, rules, facts, language, check.wording)
      ensures NoneRaises(claims[i], check)
    {
      SectionPassesExactly(
        lines[i], RequestFor(profile, profile.sections[i], facts, language, emphasis, rules), naming, check);
    }
    EverySectionPasses(SectionClaims(body.sections), claims, check);
  }

  lemma {:induction false} EverySectionPasses(all: seq<Claim>, claims: seq<seq<Claim>>, check: ClaimRules.Check)
    requires forall c: Claim :: c in all <==> InSome(c, claims)
    ensures AllPass(all, check) <==> forall i :: 0 <= i < |claims| ==> AllPass(claims[i], check)
    ensures (forall i :: 0 <= i < |claims| ==> NoneRaises(claims[i], check)) ==> NoneRaises(all, check)
  {
    forall i, c | 0 <= i < |claims| && c in claims[i]
      ensures c in all
    {
      assert InSome(c, claims);
    }
  }

  /** A whole generated draft passes the claim rules exactly when its contacts do and every
      line is its fact's own wording or an honoured rule's; only a contact can make them raise.
      The headline always passes. */
  lemma {:induction false} GeneratedDraftPassesExactly(
      body: DraftBody, lines: seq<seq<PresentedClaim>>, profile: Profile, facts: FactStore, language: Language,
      emphasis: string, rules: seq<Rule>, chosen: Option<map<string, set<string>>>, naming: Claim -> string,
      check: ClaimRules.Check)
    requires Coherent(rules, facts) && ChecksAgainst(check, rules, facts, language)
    requires BuiltFrom(body, lines, profile, facts, language, emphasis, rules, chosen, naming)
    ensures var claims := DraftClaims(body);
            && ((forall k :: 0 <= k < |claims| ==> ClaimRules.Passes(claims[k], k == 0, check)) <==>
                  AllPass(body.contacts, check) && EveryLineWellWorded(lines, rules, facts, language, check.wording))
            && (NoneRaises(claims, check) <==> NoneRaises(body.contacts, check))
  {
    SupportResolves(profile, facts, language, chosen);
    HeadlinePasses(profile, Titles(Flatten(Layouts(profile.sections, facts, language, chosen)), facts), naming, check);
    SectionsPassExactly(body, lines, profile, facts, language, emphasis, rules, chosen, naming, check);
    DraftPassesByParts(body, check);
  }

  lemma {:induction false} DraftPassesByParts(body: DraftBody, check: ClaimRules.Check)
    ensures var claims := DraftClaims(body);
            && ((forall k :: 0 <= k < |claims| ==> ClaimRules.Passes(claims[k], k == 0, check)) <==>
                  && ClaimRules.Passes(body.headline, true, check)
                  && AllPass(body.contacts, check) && AllPass(SectionClaims(body.sections), check))
            && (NoneRaises(claims, check) <==>
                  && !ClaimRules.Raises(body.headline, check)
                  && NoneRaises(body.contacts, check) && NoneRaises(SectionClaims(body.sections), check))
  {
    var rest := body.contacts + SectionClaims(body.sections);
    assert DraftClaims(body) == [body.headline] + rest;
    FirstApart(body.headline, rest, check);
    PartsPass(body.contacts, SectionClaims(body.sections), check);
  }

  lemma {:induction false} FirstApart(first: Claim, rest: seq<Claim>, check: ClaimRules.Check)
    ensures var claims := [first] + rest;
            && ((forall k :: 0 <= k < |claims| ==> ClaimRules.Passes(claims[k], k == 0, check)) <==>
                  ClaimRules.Passes(first, true, check) && AllPass(rest, check))
            && (NoneRaises(claims, check) <==> !ClaimRules.Raises(first, check) && NoneRaises(rest, check))
  {
    var claims := [first] + rest;
    assert claims[0] == first && forall k :: 0 <= k < |rest| ==> claims[k + 1] == rest[k];
    if forall k :: 0 <= k < |claims| ==> ClaimRules.Passes(claims[k], k == 0, check) {
      forall c | c in rest
        ensures ClaimRules.Passes(c, false, check)
      {
        var k :| 0 <= k < |rest| && rest[k] == c;
        assert claims[k + 1] == c;
      }
    }
  }

  lemma {:induction false} PartsPass(a: seq<Claim>, b: seq<Claim>, check: ClaimRules.Check)
    ensures AllPass(a + b, check) <==> AllPass(a, check) && AllPass(b, check)
    ensures NoneRaises(a + b, check) <==> NoneRaises(a, check) && NoneRaises(b, check)
  {
    assert forall c :: c in a + b <==> c in a || c in b;
  }
}
