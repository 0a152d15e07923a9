/** Building a draft from a choice of facts, and what validation says of it
    (domain/drafts.py: build_draft; domain/validation.py). */
module Generation {
  import opened Wrappers
  import opened Contracts
  import opened Sequences
  import opened Presentations
  import opened Frame
  import opened RolePlacement
  import Drafts
  import ClaimRules

  // ----- one section -----

  /** A presented line as a claim: canonical, derived from one fact, or composed of several.
      `naming` is the deterministic identity given to what the claim says. */
  function ToClaim(line: PresentedClaim, naming: Claim -> string): Claim {
    var claimType :=
      if line.rule.None? then Canonical else if |line.factIds| == 1 then Derived else Composite;
    var plain := Drafts.PlainClaim("", line.style, line.text, line.factIds, claimType);
    var claim :=
      match claimType
      case Derived => plain.(derivation := line.rule)
      case Composite => plain.(template := line.rule)
      case _ => plain;
    claim.(claimId := naming(claim))
  }

  /** What a line's claim is, field by field. */
  lemma {:induction false} ClaimOfLine(line: PresentedClaim, naming: Claim -> string)
    ensures var c := ToClaim(line, naming);
      && c.text == line.text && c.style == line.style && c.factIds == line.factIds && c.textHash == Sha256(line.text)
      && c.claimId == naming(c.(claimId := "")) && c.pendingReason.None? && c.evidence.None?
      && (line.rule.None? ==> c.claimType.Canonical? && c.derivation.None? && c.template.None?)
      && (line.rule.Some? && |line.factIds| == 1 ==>
            c.claimType.Derived? && c.derivation == line.rule && c.template.None?)
      && (line.rule.Some? && |line.factIds| != 1 ==>
            c.claimType.Composite? && c.template == line.rule && c.derivation.None?)
  {
  }

  function ToClaims(lines: seq<PresentedClaim>, naming: Claim -> string): seq<Claim> {
    seq(|lines|, i requires 0 <= i < |lines| => ToClaim(lines[i], naming))
  }

  function RequestFor(
      profile: Profile, spec: SectionSpec, facts: FactStore, language: Language, emphasis: string, rules: seq<Rule>)
    : Request
  {
    Request(profile.profileId, spec.nameEn, spec.factIds, emphasis, language, facts, rules)
  }

  /** Without presentations every fact is a line of its own. */
  method PlainLines(request: Request, factIds: seq<string>)
    returns (lines: Result<seq<PresentedClaim>, PresentationError>)
    requires request.rules == []
    ensures lines == PresentFrom(request, factIds, 0)
  {
    var said: seq<PresentedClaim> := [];
    ghost var total := PresentFrom(request, factIds, 0);
    JoinNothing(total);
    for i := 0 to |factIds|
      invariant Join(said, PresentFrom(request, factIds, i)) == total
    {
      var line := PlainLine(request, factIds[i]);
      ghost var rest := SayOneMore(request, factIds, i, line, said, total);
      if line.Err? {
        return Err(line.error);
      }
      said := said + [line.value];
    }
    NothingLeft(request, factIds, said);
    lines := Ok(said);
  }

  /** A section's lines: in the presentation's wording, or fact by fact. */
  method SectionLines(request: Request, factIds: seq<string>, presentations: bool)
    returns (lines: Result<seq<PresentedClaim>, PresentationError>)
    requires Distinct(factIds) && forall rule :: rule in request.rules ==> WellFormed(rule)
    requires !presentations ==> request.rules == []
    ensures lines == PresentSection(request, factIds)
    ensures lines.Ok? ==> PresentedFacts(lines.value) == factIds
    ensures lines.Ok? ==> forall line :: line in lines.value ==> Says(line, request)
  {
    if presentations {
      lines := RenderSection(request, factIds);
    } else {
      lines := PlainLines(request, factIds);
    }
    if lines.Ok? {
      PresentedInOrder(request, factIds, 0);
      assert factIds[0..] == factIds;
    }
  }

  // ----- the whole document -----

  /** The document's sections: an optional one is left out when it has no line. */
  function Assemble(specs: seq<SectionSpec>, claims: seq<seq<Claim>>, language: Language): seq<Section>
    requires |specs| == |claims|
  {
    if specs == [] then []
    else
      var last := |specs| - 1;
      var earlier := Assemble(specs[..last], claims[..last], language);
      if claims[last] != [] || !specs[last].optional
      then earlier + [Section(LocalName(specs[last], language), claims[last])] else earlier
  }

  datatype BuildError = FrameRefused(frame: FrameError) | LineRefused(line: PresentationError)

  function Layouts(
      specs: seq<SectionSpec>, facts: FactStore, language: Language, chosen: Option<map<string, set<string>>>)
    : seq<seq<string>>
  {
    seq(|specs|, i requires 0 <= i < |specs| => Layout(specs[i], facts, language, PickedFor(chosen, specs[i].nameEn)))
  }

  function Flatten(lists: seq<seq<string>>): seq<string> {
    if lists == [] then [] else lists[0] + Flatten(lists[1..])
  }

  function Titles(ids: seq<string>, facts: FactStore): seq<string> {
    if ids == [] then []
    else if IsRoleTitle(facts, ids[0]) then [ids[0]] + Titles(ids[1..], facts)
    else Titles(ids[1..], facts)
  }

  /** The lines of each section read its layout in order, each saying exactly its own facts. */
  predicate PresentsLayouts(
      lines: seq<seq<PresentedClaim>>, layouts: seq<seq<string>>, profile: Profile, facts: FactStore,
      language: Language, emphasis: string, rules: seq<Rule>)
  {
    && |lines| == |layouts| <= |profile.sections|
    && forall i :: 0 <= i < |lines| ==>
         && PresentedFacts(lines[i]) == layouts[i]
         && forall line :: line in lines[i] ==>
              Says(line, RequestFor(profile, profile.sections[i], facts, language, emphasis, rules))
  }

  function AllClaims(lines: seq<seq<PresentedClaim>>, naming: Claim -> string): seq<seq<Claim>> {
    seq(|lines|, i requires 0 <= i < |lines| => ToClaims(lines[i], naming))
  }

  lemma {:induction false} ClaimsOneMore(
      lines: seq<seq<PresentedClaim>>, shown: seq<PresentedClaim>, naming: Claim -> string)
    ensures AllClaims(lines + [shown], naming) == AllClaims(lines, naming) + [ToClaims(shown, naming)]
  {
  }

  lemma {:induction false} AssembleOneMore(
      specs: seq<SectionSpec>, i: nat, before: seq<seq<Claim>>, claims: seq<Claim>, language: Language)
    requires i < |specs| && |before| == i
    ensures Assemble(specs[..i + 1], before + [claims], language)
         == Assemble(specs[..i], before, language)
            + (if claims != [] || !specs[i].optional then [Section(LocalName(specs[i], language), claims)] else [])
  {
    assert specs[..i + 1][..i] == specs[..i] && (before + [claims])[..i] == before;
  }

  lemma {:induction false} PresentsOneMore(
      lines: seq<seq<PresentedClaim>>, shown: seq<PresentedClaim>, layouts: seq<seq<string>>, i: nat, profile: Profile,
      facts: FactStore, language: Language, emphasis: string, rules: seq<Rule>)
    requires i < |layouts| && |layouts| == |profile.sections|
    requires PresentsLayouts(lines, layouts[..i], profile, facts, language, emphasis, rules)
    requires PresentedFacts(shown) == layouts[i]
    requires forall line :: line in shown ==>
      Says(line, RequestFor(profile, profile.sections[i], facts, language, emphasis, rules))
    ensures PresentsLayouts(lines + [shown], layouts[..i + 1], profile, facts, language, emphasis, rules)
  {
  }

  /** Every section's layout can be put into words. */
  predicate Presentable(
      layouts: seq<seq<string>>, profile: Profile, facts: FactStore, language: Language, emphasis: string,
      rules: seq<Rule>)
    requires |layouts| <= |profile.sections|
  {
    forall i :: 0 <= i < |layouts| ==>
      Sayable(RequestFor(profile, profile.sections[i], facts, language, emphasis, rules), layouts[i])
  }

  predicate Sayable(request: Request, factIds: seq<string>) {
    PresentSection(request, factIds).Ok?
  }

  lemma {:induction false} PresentableOneMore(
      layouts: seq<seq<string>>, i: nat, profile: Profile, facts: FactStore, language: Language, emphasis: string,
      rules: seq<Rule>)
    requires i < |layouts| && |layouts| == |profile.sections|
    requires Presentable(layouts[..i], profile, facts, language, emphasis, rules)
    ensures var request := RequestFor(profile, profile.sections[i], facts, language, emphasis, rules);
      && (Sayable(request, layouts[i]) ==> Presentable(layouts[..i + 1], profile, facts, language, emphasis, rules))
      && (!Sayable(request, layouts[i]) ==> !Presentable(layouts, profile, facts, language, emphasis, rules))
  {
  }

  /** Each section's lines are what presenting its layout yields. */
  predicate PresentsSections(
      lines: seq<seq<PresentedClaim>>, layouts: seq<seq<string>>, profile: Profile, facts: FactStore,
      language: Language, emphasis: string, rules: seq<Rule>)
  {
    && |lines| == |layouts| <= |profile.sections|
    && forall i :: 0 <= i < |lines| ==>
         PresentSection(RequestFor(profile, profile.sections[i], facts, language, emphasis, rules), layouts[i]) ==
           Ok(lines[i])
  }

  lemma {:induction false} PresentsSectionMore(
      lines: seq<seq<PresentedClaim>>, shown: seq<PresentedClaim>, layouts: seq<seq<string>>, i: nat, profile: Profile,
      facts: FactStore, language: Language, emphasis: string, rules: seq<Rule>)
    requires i < |layouts| && |layouts| == |profile.sections|
    requires PresentsSections(lines, layouts[..i], profile, facts, language, emphasis, rules)
    requires PresentSection(RequestFor(profile, profile.sections[i], facts, language, emphasis, rules), layouts[i]) ==
      Ok(shown)
    ensures PresentsSections(lines + [shown], layouts[..i + 1], profile, facts, language, emphasis, rules)
  {
  }

  /** The section's lines read its facts by the rules for this Profile, this section and this
      emphasis, none of which reaches outside its pool. */
  ghost predicate ReadByTheRules(
      lines: seq<PresentedClaim>, profile: Profile, spec: SectionSpec, facts: FactStore, language: Language,
      emphasis: string, rules: seq<Rule>)
  {
    var request := Request(profile.profileId, spec.nameEn, spec.factIds, emphasis, language, facts, rules);
    DistinctIdentities(rules) && (forall rule :: rule in rules ==> WellFormed(rule)) ==>
      NoRuleEscapes(request, PresentedFacts(lines)) && ReadsAll(lines, request, PresentedFacts(lines))
  }

  lemma {:induction false} SectionsReadByTheRules(
      lines: seq<seq<PresentedClaim>>, layouts: seq<seq<string>>, profile: Profile, facts: FactStore,
      language: Language, emphasis: string, rules: seq<Rule>, i: nat)
    requires PresentsSections(lines, layouts, profile, facts, language, emphasis, rules) && i < |lines|
    requires PresentedFacts(lines[i]) == layouts[i]
    ensures ReadByTheRules(lines[i], profile, profile.sections[i], facts, language, emphasis, rules)
  {
    if DistinctIdentities(rules) && (forall rule :: rule in rules ==> WellFormed(rule)) {
      SectionInTurn(
        RequestFor(profile, profile.sections[i], facts, language, emphasis, rules), layouts[i], lines[i]);
    }
  }

  /** The sections of a laid-out choice, one after the other. */
  method BuildSections(
      profile: Profile, facts: FactStore, language: Language, emphasis: string, rules: seq<Rule>, presentations: bool,
      layouts: seq<seq<string>>, naming: Claim -> string)
    returns (sections: Result<seq<Section>, PresentationError>, ghost lines: seq<seq<PresentedClaim>>)
    requires |layouts| == |profile.sections| && forall layout :: layout in layouts ==> Distinct(layout)
    requires forall rule :: rule in rules ==> WellFormed(rule)
    requires !presentations ==> rules == []
    ensures sections.Ok? <==> Presentable(layouts, profile, facts, language, emphasis, rules)
    ensures sections.Ok? ==> PresentsLayouts(lines, layouts, profile, facts, language, emphasis, rules)
    ensures sections.Ok? ==> PresentsSections(lines, layouts, profile, facts, language, emphasis, rules)
    ensures sections.Ok? ==> sections.value == Assemble(profile.sections, AllClaims(lines, naming), language)
  {
    lines := [];
    var specs := profile.sections;
    var built: seq<Section> := [];
    for i := 0 to |specs|
      invariant Presentable(layouts[..i], profile, facts, language, emphasis, rules)
      invariant PresentsLayouts(lines, layouts[..i], profile, facts, language, emphasis, rules)
      invariant PresentsSections(lines, layouts[..i], profile, facts, language, emphasis, rules)
      invariant built == Assemble(specs[..i], AllClaims(lines, naming), language)
    {
      var request := RequestFor(profile, specs[i], facts, language, emphasis, rules);
      assert layouts[i] in layouts;
      PresentableOneMore(layouts, i, profile, facts, language, emphasis, rules);
      var shown := SectionLines(request, layouts[i], presentations);
      if shown.Err? {
        return Err(shown.error), lines;
      }
      var claims := ToClaims(shown.value, naming);
      AssembleOneMore(specs, i, AllClaims(lines, naming), claims, language);
      ClaimsOneMore(lines, shown.value, naming);
      PresentsOneMore(lines, shown.value, layouts, i, profile, facts, language, emphasis, rules);
      PresentsSectionMore(lines, shown.value, layouts, i, profile, facts, language, emphasis, rules);
      lines := lines + [shown.value];
      if claims != [] || !specs[i].optional {
        built := built + [Section(LocalName(specs[i], language), claims)];
      }
    }
    assert specs[..|specs|] == specs && layouts[..|layouts|] == layouts;
    sections := Ok(built);
  }

  // ----- section order -----

  function SectionNames(sections: seq<Section>): seq<string> {
    seq(|sections|, i requires 0 <= i < |sections| => sections[i].name)
  }

  /** The sections validation expects, in order: every one the Profile does not mark optional. */
  function ExpectedNames(specs: seq<SectionSpec>, language: Language): seq<string> {
    if specs == [] then []
    else
      var last := specs[|specs| - 1];
      var earlier := ExpectedNames(specs[..|specs| - 1], language);
      if last.optional then earlier else earlier + [LocalName(last, language)]
  }

  lemma {:induction false} AssembledNames(specs: seq<SectionSpec>, claims: seq<seq<Claim>>, language: Language)
    requires |specs| == |claims|
    ensures |Assemble(specs, claims, language)| >= |ExpectedNames(specs, language)|
    ensures |Assemble(specs, claims, language)| == |ExpectedNames(specs, language)| <==>
      forall i :: 0 <= i < |specs| && specs[i].optional ==> claims[i] == []
    ensures (forall i :: 0 <= i < |specs| && specs[i].optional ==> claims[i] == []) ==>
      SectionNames(Assemble(specs, claims, language)) == ExpectedNames(specs, language)
  {
    if specs != [] {
      var last := |specs| - 1;
      AssembledNames(specs[..last], claims[..last], language);
      assert forall i :: 0 <= i < last ==> specs[..last][i] == specs[i] && claims[..last][i] == claims[i];
    }
  }

  /** No fact belongs in an optional section: none of its structure, nothing picked. */
  predicate NothingOptionalShown(
      specs: seq<SectionSpec>, facts: FactStore, language: Language, chosen: Option<map<string, set<string>>>)
  {
    forall i, id :: 0 <= i < |specs| && specs[i].optional && id in specs[i].factIds ==>
      !Belongs(id, specs[i], facts, language, chosen)
  }

  lemma {:induction false} NothingShownExactly(
      spec: SectionSpec, facts: FactStore, language: Language, chosen: Option<map<string, set<string>>>)
    ensures Shown(spec, facts, language, PickedFor(chosen, spec.nameEn)) == {} <==>
      forall id :: id in spec.factIds ==> !Belongs(id, spec, facts, language, chosen)
  {
    forall id
      ensures id in Shown(spec, facts, language, PickedFor(chosen, spec.nameEn)) <==>
        Belongs(id, spec, facts, language, chosen)
    {
      ShownExactly(id, spec, facts, language, chosen);
    }
  }

  lemma {:induction false} FilterKeepsNothing(ids: seq<string>, kept: set<string>)
    requires forall id :: id in kept ==> id in ids
    ensures Filter(ids, kept) == [] <==> kept == {}
  {
    FilterKeeps(ids, kept);
  }

  lemma {:induction false} FilterKeeps(ids: seq<string>, kept: set<string>)
    ensures Filter(ids, kept) == [] <==> forall id :: id in ids ==> id !in kept
  {
    if ids != [] {
      FilterKeeps(ids[1..], kept);
      assert ids == [ids[0]] + ids[1..];
    }
  }

  /** A line says some fact, so a section has a line exactly when its layout has a fact. */
  lemma {:induction false} NoLineSaysNothing(lines: seq<PresentedClaim>, request: Request)
    requires forall line :: line in lines ==> Says(line, request)
    ensures lines == [] <==> PresentedFacts(lines) == []
  {
    if lines != [] {
      assert Says(lines[0], request);
    }
  }

  /** The builder and the check disagree on optional sections: a generated document has the
      sections validation expects exactly when no optional section had a fact to show. */
  lemma {:induction false} SectionOrderHoldsExactly(
      lines: seq<seq<PresentedClaim>>, profile: Profile, facts: FactStore, language: Language, emphasis: string,
      rules: seq<Rule>, chosen: Option<map<string, set<string>>>, naming: Claim -> string)
    requires PresentsLayouts(
      lines, Layouts(profile.sections, facts, language, chosen), profile, facts, language, emphasis, rules)
    ensures NothingOptionalShown(profile.sections, facts, language, chosen) <==>
      SectionNames(Assemble(profile.sections, AllClaims(lines, naming), language)) ==
        ExpectedNames(profile.sections, language)
  {
    var specs := profile.sections;
    AssembledNames(specs, AllClaims(lines, naming), language);
    forall i | 0 <= i < |specs|
      ensures AllClaims(lines, naming)[i] == [] <==>
        forall id :: id in specs[i].factIds ==> !Belongs(id, specs[i], facts, language, chosen)
    {
      NothingShownExactly(specs[i], facts, language, chosen);
      NoLineSaysNothing(lines[i], RequestFor(profile, specs[i], facts, language, emphasis, rules));
      FilterKeepsNothing(specs[i].factIds, Shown(specs[i], facts, language, PickedFor(chosen, specs[i].nameEn)));
    }
  }

  /** Such a document exists: a Profile whose one section is optional and has one fact. */
  lemma {:induction false} OptionalSectionIsUnexpected(naming: Claim -> string)
    returns (profile: Profile, facts: FactStore)
    ensures DistinctEnglishNames(profile.sections) && forall spec :: spec in profile.sections ==> Distinct(spec.factIds)
    ensures Acceptable(profile.sections, facts, En, None)
    ensures Presentable(Layouts(profile.sections, facts, En, None), profile, facts, En, "balanced", [])
    ensures forall lines ::
      PresentsLayouts(lines, Layouts(profile.sections, facts, En, None), profile, facts, En, "balanced", []) ==>
        SectionNames(Assemble(profile.sections, AllClaims(lines, naming), En)) != ExpectedNames(profile.sections, En)
  {
    var fact := Fact("f", "built", map[En := "built"], [], CanonicalFact, None, None, "base/common.json", Bullet);
    var spec := SectionSpec("Projects", "Projects", ["f"], [], 0, true);
    profile, facts := Profile("p", "Engineer", [spec]), map["f" := fact];
    var request := RequestFor(profile, spec, facts, En, "balanced", []);
    assert Shown(spec, facts, En, None) == {"f"};
    assert Layouts(profile.sections, facts, En, None) == [["f"]] by {
      assert ["f"][1..] == [] && Filter(["f"], {"f"}) == ["f"];
      assert Layouts(profile.sections, facts, En, None)[0] == Layout(spec, facts, En, None);
    }
    assert Sayable(request, ["f"]) by {
      assert PresentFrom(request, ["f"], 1) == Ok([]);
    }
    forall lines |
        PresentsLayouts(lines, Layouts(profile.sections, facts, En, None), profile, facts, En, "balanced", [])
      ensures
        SectionNames(Assemble(profile.sections, AllClaims(lines, naming), En)) != ExpectedNames(profile.sections, En)
    {
      SectionOrderHoldsExactly(lines, profile, facts, En, "balanced", [], None, naming);
      assert !NothingOptionalShown(profile.sections, facts, En, None) by {
        assert profile.sections[0] == spec;
      }
    }
  }

  // ----- the headline -----

  /** The historical titles that belong in some section, and nothing else. */
  ghost predicate SupportedByTitles(
      support: seq<string>, specs: seq<SectionSpec>, facts: FactStore, language: Language,
      chosen: Option<map<string, set<string>>>)
  {
    forall id :: id in support <==>
      && id in facts && "historical-title" in facts[id].tags
      && exists spec :: spec in specs && Belongs(id, spec, facts, language, chosen)
  }

  lemma {:induction false} FlattenHolds(lists: seq<seq<string>>, id: string)
    ensures id in Flatten(lists) <==> exists i :: 0 <= i < |lists| && id in lists[i]
  {
    if lists != [] {
      FlattenHolds(lists[1..], id);
      if i :| 0 <= i < |lists[1..]| && id in lists[1..][i] {
        assert lists[i + 1] == lists[1..][i];
      }
      if i :| 0 < i < |lists| && id in lists[i] {
        assert lists[1..][i - 1] == lists[i];
      }
    }
  }

  lemma {:induction false} TitlesAmong(ids: seq<string>, facts: FactStore, id: string)
    ensures id in Titles(ids, facts) <==> id in ids && id in facts && "historical-title" in facts[id].tags
  {
    if ids != [] {
      TitlesAmong(ids[1..], facts, id);
      assert ids == [ids[0]] + ids[1..];
    }
  }

  lemma {:induction false} FilterHolds(ids: seq<string>, kept: set<string>, id: string)
    ensures id in Filter(ids, kept) <==> id in ids && id in kept
  {
    if ids != [] {
      FilterHolds(ids[1..], kept, id);
      assert ids == [ids[0]] + ids[1..];
    }
  }

  lemma {:induction false} SupportIsTitles(
      specs: seq<SectionSpec>, facts: FactStore, language: Language, chosen: Option<map<string, set<string>>>)
    ensures SupportedByTitles(
      Titles(Flatten(Layouts(specs, facts, language, chosen)), facts), specs, facts, language, chosen)
  {
    var layouts := Layouts(specs, facts, language, chosen);
    forall id
      ensures id in Titles(Flatten(layouts), facts) <==>
        && id in facts && "historical-title" in facts[id].tags
        && exists spec :: spec in specs && Belongs(id, spec, facts, language, chosen)
    {
      TitlesAmong(Flatten(layouts), facts, id);
      FlattenHolds(layouts, id);
      InLayouts(specs, facts, language, chosen, id);
    }
  }

  lemma {:induction false} InLayouts(
      specs: seq<SectionSpec>, facts: FactStore, language: Language, chosen: Option<map<string, set<string>>>,
      id: string)
    ensures (exists i :: 0 <= i < |specs| && id in Layouts(specs, facts, language, chosen)[i]) <==>
      exists spec :: spec in specs && Belongs(id, spec, facts, language, chosen)
  {
    forall i | 0 <= i < |specs|
      ensures id in Layouts(specs, facts, language, chosen)[i] <==> Belongs(id, specs[i], facts, language, chosen)
    {
      var spec := specs[i];
      ShownExactly(id, spec, facts, language, chosen);
      FilterHolds(spec.factIds, Shown(spec, facts, language, PickedFor(chosen, spec.nameEn)), id);
    }
    if spec :| spec in specs && Belongs(id, spec, facts, language, chosen) {
      var i :| 0 <= i < |specs| && specs[i] == spec;
      assert id in Layouts(specs, facts, language, chosen)[i];
    }
  }

  // ----- the draft -----

  function HeadlineFor(profile: Profile, support: seq<string>, naming: Claim -> string): Claim {
    var headline := Drafts.PlainClaim("", HeadlineStyle, profile.headline, support, Headline);
    headline.(claimId := naming(headline))
  }

  /** A document in canonical wording, laid out from a choice of facts. The headline is
      supported by the historical titles that actually reached the document. */
  method BuildDraft(
      provenance: string, name: string, contacts: seq<Claim>, profile: Profile, facts: FactStore, language: Language,
      emphasis: string, presentations: Option<seq<Rule>>, chosen: Option<map<string, set<string>>>,
      naming: Claim -> string)
    returns (draft: Result<Draft, BuildError>, ghost lines: seq<seq<PresentedClaim>>)
    requires DistinctEnglishNames(profile.sections)
    requires forall spec :: spec in profile.sections ==> Distinct(spec.factIds)
    requires presentations.Some? ==> forall rule :: rule in presentations.value ==> WellFormed(rule)
    ensures draft.Ok? <==>
      && Acceptable(profile.sections, facts, language, chosen)
      && Presentable(Layouts(profile.sections, facts, language, chosen), profile, facts, language, emphasis,
                     if presentations.Some? then presentations.value else [])
    ensures draft.Ok? ==>
      && PresentsLayouts(lines, Layouts(profile.sections, facts, language, chosen), profile, facts, language, emphasis,
                         if presentations.Some? then presentations.value else [])
      && draft.value == Seal(draft.value.body) && draft.value.body.language == language
      && draft.value.body.sections == Assemble(profile.sections, AllClaims(lines, naming), language)
      && draft.value.body.contacts == contacts
      && draft.value.body.headline ==
           HeadlineFor(profile, Titles(Flatten(Layouts(profile.sections, facts, language, chosen)), facts), naming)
    ensures draft.Ok? ==>
      && (forall i :: 0 <= i < |profile.sections| ==>
            && InPoolOrder(PresentedFacts(lines[i]), profile.sections[i], facts, language, chosen)
            && ReadByTheRules(
                 lines[i], profile, profile.sections[i], facts, language, emphasis,
                 if presentations.Some? then presentations.value else []))
      && draft.value.body.headline.text == profile.headline && draft.value.body.headline.style.HeadlineStyle?
      && draft.value.body.headline.claimType.Headline? && draft.value.body.name == name
      && SupportedByTitles(draft.value.body.headline.factIds, profile.sections, facts, language, chosen)
    ensures draft.Ok? ==>
      (SectionNames(draft.value.body.sections) == ExpectedNames(profile.sections, language) <==>
         NothingOptionalShown(profile.sections, facts, language, chosen))
  {
    lines := [];
    var rules := if presentations.Some? then presentations.value else [];
    var laidOut := LayOutChoice(profile.sections, facts, language, chosen);
    if laidOut.Err? {
      return Err(FrameRefused(laidOut.error)), lines;
    }
    var specs := profile.sections;
    var layouts := seq(|specs|, i requires 0 <= i < |specs| =>
      assert specs[i] in specs; laidOut.value[specs[i].nameEn]);
    assert layouts == Layouts(specs, facts, language, chosen);
    forall layout | layout in layouts ensures Distinct(layout) {
      var i :| 0 <= i < |specs| && layout == layouts[i];
      assert specs[i] in specs;
      FilterIsDistinct(specs[i].factIds, Shown(specs[i], facts, language, PickedFor(chosen, specs[i].nameEn)));
    }
    var sections;
    sections, lines := BuildSections(
      profile, facts, language, emphasis, rules, presentations.Some?, layouts, naming);
    if sections.Err? {
      return Err(LineRefused(sections.error)), lines;
    }
    var support := Titles(Flatten(layouts), facts);
    var headline := HeadlineFor(profile, support, naming);
    SectionOrderHoldsExactly(lines, profile, facts, language, emphasis, rules, chosen, naming);
    forall i | 0 <= i < |specs|
      ensures InPoolOrder(PresentedFacts(lines[i]), specs[i], facts, language, chosen)
      ensures ReadByTheRules(lines[i], profile, specs[i], facts, language, emphasis, rules)
    {
      LayoutIsInPoolOrder(specs[i], facts, language, chosen);
      SectionsReadByTheRules(lines, layouts, profile, facts, language, emphasis, rules, i);
    }
    SupportIsTitles(specs, facts, language, chosen);
    draft := Ok(Seal(DraftBody(provenance, language, name, headline, contacts, sections.value)));
  }

  lemma {:induction false} FilterIsDistinct(ids: seq<string>, kept: set<string>)
    requires Distinct(ids)
    ensures Distinct(Filter(ids, kept))
    ensures forall id :: id in Filter(ids, kept) ==> id in ids && id in kept
  {
    if ids != [] {
      FilterIsDistinct(ids[1..], kept);
      forall id | id in ids[1..] ensures id != ids[0] {
        var k :| 1 <= k < |ids| && ids[k] == id;
      }
    }
  }

  // ----- roles -----

  /** Every role title of the pool is canonical and styled as a heading. */
  predicate TitlesReady(pool: seq<string>, facts: FactStore) {
    forall id :: id in pool && IsRoleTitle(facts, id) ==> IsCanonical(facts, id) && facts[id].style.Heading?
  }

  lemma {:induction false} FactsOfClaims(lines: seq<PresentedClaim>, naming: Claim -> string)
    ensures ClaimFacts(ToClaims(lines, naming)) == PresentedFacts(lines)
  {
    if lines != [] {
      var front, last := lines[..|lines| - 1], lines[|lines| - 1];
      FactsOfClaims(front, naming);
      PresentedConcat(front, [last]);
      assert lines == front + [last];
      assert ToClaims(lines, naming)[..|lines| - 1] == ToClaims(front, naming);
      assert PresentedFacts([last]) == last.factIds + [];
    }
  }

  lemma {:induction false} PresentedConcat(a: seq<PresentedClaim>, b: seq<PresentedClaim>)
    ensures PresentedFacts(a + b) == PresentedFacts(a) + PresentedFacts(b)
  {
    if a == [] {
      assert a + b == b;
    } else {
      PresentedConcat(a[1..], b);
      assert (a + b)[0] == a[0] && (a + b)[1..] == a[1..] + b;
      Associates(a[0].factIds, PresentedFacts(a[1..]), PresentedFacts(b));
    }
  }

  lemma {:induction false} RenderedRuleIsKnown(rules: seq<Rule>, identity: Contract)
    ensures FindRule(rules, identity).Some? ==>
      FindRule(rules, identity).value in rules && FindRule(rules, identity).value.identity == identity
  {
    if rules != [] {
      RenderedRuleIsKnown(rules[1..], identity);
    }
  }

  /** What a line says, it says of canonical facts; a rule's facts share its evidence style. */
  lemma {:induction false} SaidFactsAreCanonical(line: PresentedClaim, request: Request)
    requires Says(line, request) && Coherent(request.rules, request.facts)
    ensures forall id :: id in line.factIds ==> GetCanonical(request.facts, id).Ok?
    ensures line.rule.Some? ==>
      Editable(line.style) && forall id :: id in line.factIds ==>
        id in request.facts && request.facts[id].style == line.style
  {
    if line.rule.Some? {
      RenderedRuleIsKnown(request.rules, line.rule.value);
      var rule := FindRule(request.rules, line.rule.value).value;
      assert rule in request.rules && rule.factIds == line.factIds;
    }
  }

  lemma {:induction false} LinesKeepTitlesApart(
      lines: seq<PresentedClaim>, request: Request, naming: Claim -> string)
    requires Coherent(request.rules, request.facts) && TitlesReady(request.pool, request.facts)
    requires forall line :: line in lines ==> Says(line, request) && AllIn(line.factIds, request.pool)
    ensures TitlesAlone(ToClaims(lines, naming), request.facts)
    ensures TitlesAreStructure(ToClaims(lines, naming), request.facts)
  {
    forall c | c in ToClaims(lines, naming)
      ensures NoTitles(c.factIds, request.facts) || |c.factIds| == 1
      ensures FirstTitle(c.factIds, request.facts).Some? ==> Structural(c.style)
    {
      var k :| 0 <= k < |lines| && c == ToClaim(lines[k], naming);
      SaidFactsAreCanonical(lines[k], request);
      FirstTitleFound(c.factIds, request.facts);
      assert lines[k] in lines;
    }
  }

  lemma {:induction false} FactsOfLine(lines: seq<PresentedClaim>, line: PresentedClaim)
    requires line in lines
    ensures AllIn(line.factIds, PresentedFacts(lines))
  {
    if line != lines[0] {
      FactsOfLine(lines[1..], line);
    }
  }

  lemma {:induction false} LinesStayInPool(lines: seq<PresentedClaim>, pool: seq<string>, kept: set<string>)
    requires Distinct(pool) && PresentedFacts(lines) == Filter(pool, kept)
    ensures forall line :: line in lines ==> AllIn(line.factIds, pool)
  {
    FilterIsDistinct(pool, kept);
    forall line | line in lines ensures AllIn(line.factIds, pool) {
      FactsOfLine(lines, line);
    }
  }

  /** Whatever was chosen, a generated section has no line under the wrong role - as long as
      every role title of its pool is canonical and a heading. */
  lemma {:induction false} GeneratedSectionIsWellPlaced(
      lines: seq<PresentedClaim>, request: Request, kept: set<string>, naming: Claim -> string)
    requires Distinct(request.pool) && Coherent(request.rules, request.facts)
    requires TitlesReady(request.pool, request.facts)
    requires forall id :: id in request.pool && IsRoleTitle(request.facts, id) ==> id in kept
    requires PresentedFacts(lines) == Filter(request.pool, kept)
    requires forall line :: line in lines ==> Says(line, request)
    ensures WellPlaced(ToClaims(lines, naming), request.pool, request.facts)
    ensures TitlesAreStructure(ToClaims(lines, naming), request.facts)
  {
    LinesStayInPool(lines, request.pool, kept);
    LinesKeepTitlesApart(lines, request, naming);
    FactsOfClaims(lines, naming);
    LaidOutIsWellPlaced(ToClaims(lines, naming), request.pool, kept, request.facts);
  }

  predicate DistinctLocalNames(specs: seq<SectionSpec>, language: Language) {
    forall i, j :: 0 <= i < j < |specs| ==> LocalName(specs[i], language) != LocalName(specs[j], language)
  }

  lemma {:induction false} SpecOfItsName(specs: seq<SectionSpec>, language: Language, i: nat)
    requires i < |specs| && DistinctLocalNames(specs, language)
    ensures SpecNamed(specs, language, LocalName(specs[i], language)) == Some(specs[i])
  {
    if i < |specs| - 1 {
      SpecOfItsName(specs[..|specs| - 1], language, i);
    }
  }

  lemma {:induction false} AssembledSection(
      specs: seq<SectionSpec>, claims: seq<seq<Claim>>, language: Language, s: Section)
    requires |specs| == |claims| && s in Assemble(specs, claims, language)
    ensures exists i :: 0 <= i < |specs| && s == Section(LocalName(specs[i], language), claims[i])
  {
    var last := |specs| - 1;
    if s in Assemble(specs[..last], claims[..last], language) {
      AssembledSection(specs[..last], claims[..last], language, s);
      var i :| 0 <= i < last && s == Section(LocalName(specs[..last][i], language), claims[..last][i]);
      assert s == Section(LocalName(specs[i], language), claims[i]);
    }
  }

  predicate PlacedSection(s: Section, specs: seq<SectionSpec>, language: Language, facts: FactStore) {
    match SpecNamed(specs, language, s.name)
    case None => false
    case Some(spec) =>
      && WellPlaced(s.claims, spec.factIds, facts)
      && TitlesAreStructure(s.claims, facts)
      && forall c :: c in s.claims ==> AllIn(c.factIds, spec.factIds)
  }

  lemma {:induction false} GeneratedSectionAt(
      lines: seq<seq<PresentedClaim>>, profile: Profile, facts: FactStore, language: Language, emphasis: string,
      rules: seq<Rule>, chosen: Option<map<string, set<string>>>, naming: Claim -> string, i: nat)
    requires DistinctLocalNames(profile.sections, language) && Coherent(rules, facts) && i < |profile.sections|
    requires Distinct(profile.sections[i].factIds) && TitlesReady(profile.sections[i].factIds, facts)
    requires PresentsLayouts(
      lines, Layouts(profile.sections, facts, language, chosen), profile, facts, language, emphasis, rules)
    ensures PlacedSection(
      Section(LocalName(profile.sections[i], language), ToClaims(lines[i], naming)), profile.sections, language, facts)
  {
    var spec := profile.sections[i];
    var kept := Shown(spec, facts, language, PickedFor(chosen, spec.nameEn));
    SpecOfItsName(profile.sections, language, i);
    LinesStayInPool(lines[i], spec.factIds, kept);
    ClaimsStayInPool(lines[i], spec.factIds, naming);
    GeneratedSectionIsWellPlaced(
      lines[i], RequestFor(profile, spec, facts, language, emphasis, rules), kept, naming);
  }

  lemma {:induction false} ClaimsStayInPool(lines: seq<PresentedClaim>, pool: seq<string>, naming: Claim -> string)
    requires forall line :: line in lines ==> AllIn(line.factIds, pool)
    ensures forall c :: c in ToClaims(lines, naming) ==> AllIn(c.factIds, pool)
  {
    forall c | c in ToClaims(lines, naming) ensures AllIn(c.factIds, pool) {
      var k :| 0 <= k < |lines| && c == ToClaim(lines[k], naming);
      assert lines[k] in lines;
    }
  }

  /** The whole generated document is well placed, and links facts only of its own pools:
      two validation rules can find nothing in it. */
  lemma {:induction false} GeneratedDraftIsWellPlaced(
      lines: seq<seq<PresentedClaim>>, profile: Profile, facts: FactStore, language: Language, emphasis: string,
      rules: seq<Rule>, chosen: Option<map<string, set<string>>>, naming: Claim -> string)
    requires DistinctLocalNames(profile.sections, language) && Coherent(rules, facts)
    requires forall spec :: spec in profile.sections ==> Distinct(spec.factIds) && TitlesReady(spec.factIds, facts)
    requires PresentsLayouts(
      lines, Layouts(profile.sections, facts, language, chosen), profile, facts, language, emphasis, rules)
    ensures var sections := Assemble(profile.sections, AllClaims(lines, naming), language);
      && (forall s :: s in sections ==> PlacedSection(s, profile.sections, language, facts))
      && DocumentWellPlaced(sections, profile.sections, language, facts)
  {
    var specs := profile.sections;
    forall s | s in Assemble(specs, AllClaims(lines, naming), language)
      ensures PlacedSection(s, specs, language, facts)
    {
      AssembledSection(specs, AllClaims(lines, naming), language, s);
      var i :| 0 <= i < |specs| && s == Section(LocalName(specs[i], language), AllClaims(lines, naming)[i]);
      assert specs[i] in specs;
      GeneratedSectionAt(lines, profile, facts, language, emphasis, rules, chosen, naming, i);
    }
  }

  // ----- claim rules -----

  /** A rule that takes one of the two reserved identities is read as that contract: on one
      fact its wording must keep whole clauses of the fact's, on several it must be theirs
      joined. Any other rule may word its facts as it likes. */
  predicate Honoured(rule: Rule, facts: FactStore, language: Language, wording: Drafts.Wording) {
    language in rule.renderings ==>
      if rule.identity == Drafts.EXTRACTIVE_DERIVATION && |rule.factIds| == 1 then
        && CanSay(facts, rule.factIds[0], language)
        && Drafts.KeepsClauses(rule.renderings[language], facts[rule.factIds[0]].renderings[language], wording)
      else if rule.identity == Drafts.CANONICAL_JOIN && |rule.factIds| > 1 then
        && Drafts.AllSayable(rule.factIds, facts, language)
        && rule.renderings[language] == SpacedTogether(Drafts.WordingsOf(rule.factIds, facts, language))
      else true
  }

  /** The line is its fact's own wording, or its rule is honoured. */
  predicate WellWorded(
      line: PresentedClaim, rules: seq<Rule>, facts: FactStore, language: Language, wording: Drafts.Wording)
  {
    match line.rule
    case None => true
    case Some(identity) =>
      match FindRule(rules, identity)
      case None => false
      case Some(rule) => Honoured(rule, facts, language, wording)
  }

  /** The claims are checked against what they were generated from. */
  predicate ChecksAgainst(check: ClaimRules.Check, rules: seq<Rule>, facts: FactStore, language: Language) {
    && check.facts == facts && check.language == language
    && (check.rules == Some(rules) || (check.rules.None? && rules == []))
    && forall id :: id in facts ==> !facts[id].style.HeadlineStyle?
  }

  /** A line worded by a rule, held to that rule's facts, style and wording. */
  lemma {:induction false} LineOfItsRule(line: PresentedClaim, request: Request)
    requires Says(line, request) && Coherent(request.rules, request.facts) && line.rule.Some?
    ensures FindRule(request.rules, line.rule.value).Some?
    ensures var rule := FindRule(request.rules, line.rule.value).value;
      && rule in request.rules && rule.identity == line.rule.value && rule.factIds == line.factIds
      && rule.style == line.style && request.language in rule.renderings
      && rule.renderings[request.language] == line.text && Editable(line.style) && Distinct(line.factIds)
  {
    RenderedRuleIsKnown(request.rules, line.rule.value);
  }

  lemma {:induction false} DerivedLinePassesExactly(line: PresentedClaim, request: Request, check: ClaimRules.Check)
    requires Says(line, request) && Coherent(request.rules, request.facts)
    requires ChecksAgainst(check, request.rules, request.facts, request.language)
    requires line.rule.Some? && |line.factIds| == 1
    ensures WellWorded(line, request.rules, request.facts, request.language, check.wording) <==>
      Drafts.DerivedRefusal(
        line.text, line.factIds, check.facts, check.language, line.style, line.rule.value, check.rules,
        check.wording).None?
  {
    LineOfItsRule(line, request);
    SaidFactsAreCanonical(line, request);
    assert line.factIds == [line.factIds[0]];
  }

  lemma {:induction false} CompositeLinePassesExactly(line: PresentedClaim, request: Request, check: ClaimRules.Check)
    requires Says(line, request) && Coherent(request.rules, request.facts)
    requires ChecksAgainst(check, request.rules, request.facts, request.language)
    requires line.rule.Some? && |line.factIds| > 1
    ensures WellWorded(line, request.rules, request.facts, request.language, check.wording) <==>
      Drafts.RenderComposite(
        line.factIds, check.facts, check.language, line.style, line.rule.value, check.rules) == Ok(line.text)
  {
    LineOfItsRule(line, request);
    SaidFactsAreCanonical(line, request);
    if line.rule.value == Drafts.CANONICAL_JOIN {
      Drafts.JoinedExactly(line.text, line.factIds, check.facts, check.language, line.style, check.rules);
    }
  }

  /** Generator and validator agree on a generated line exactly when it is its fact's own
      wording or its rule is honoured; and checking it never raises. */
  lemma {:induction false} GeneratedClaimPassesExactly(
      line: PresentedClaim, request: Request, naming: Claim -> string, check: ClaimRules.Check)
    requires Says(line, request) && Coherent(request.rules, request.facts)
    requires ChecksAgainst(check, request.rules, request.facts, request.language)
    ensures ClaimRules.Passes(ToClaim(line, naming), false, check) <==>
      WellWorded(line, request.rules, request.facts, request.language, check.wording)
    ensures !ClaimRules.Raises(ToClaim(line, naming), check)
  {
    var claim := ToClaim(line, naming);
    SaidFactsAreCanonical(line, request);
    if claim.claimType.Derived? {
      DerivedLinePassesExactly(line, request, check);
      assert ClaimRules.Passes(claim, false, check) ==>
        !ClaimRules.Faulted(ClaimRules.UnsupportedDerived, claim, false, check);
    } else if claim.claimType.Composite? {
      CompositeLinePassesExactly(line, request, check);
      assert ClaimRules.Passes(claim, false, check) ==>
        && !ClaimRules.Faulted(ClaimRules.InvalidComposite, claim, false, check)
        && !ClaimRules.Faulted(ClaimRules.CompositeWording, claim, false, check);
    }
  }

  /** So where every rule is honoured - above all where none takes a reserved identity -
      every generated line passes every rule. */
  lemma {:induction false} GeneratedClaimsPass(
      lines: seq<PresentedClaim>, request: Request, naming: Claim -> string, check: ClaimRules.Check)
    requires Coherent(request.rules, request.facts) && forall line :: line in lines ==> Says(line, request)
    requires ChecksAgainst(check, request.rules, request.facts, request.language)
    requires forall rule :: rule in request.rules ==>
      || (rule.identity != Drafts.EXTRACTIVE_DERIVATION && rule.identity != Drafts.CANONICAL_JOIN)
      || Honoured(rule, request.facts, request.language, check.wording)
    ensures forall c :: c in ToClaims(lines, naming) ==>
      ClaimRules.Passes(c, false, check) && !ClaimRules.Raises(c, check)
  {
    forall c | c in ToClaims(lines, naming)
      ensures ClaimRules.Passes(c, false, check) && !ClaimRules.Raises(c, check)
    {
      var k :| 0 <= k < |lines| && c == ToClaim(lines[k], naming);
      assert lines[k] in lines;
      if lines[k].rule.Some? {
        LineOfItsRule(lines[k], request);
      }
      GeneratedClaimPassesExactly(lines[k], request, naming, check);
    }
  }

  /** The condition is needed: an accepted rule set whose rule takes the extractive identity
      generates a line the claim rules refuse. */
  lemma {:induction false} ReservedIdentityIsRefused(naming: Claim -> string, reader: ClaimRules.ClaimReview.TextReader)
    returns (line: PresentedClaim, request: Request, check: ClaimRules.Check)
    ensures Says(line, request) && Coherent(request.rules, request.facts)
    ensures ChecksAgainst(check, request.rules, request.facts, request.language)
    ensures !ClaimRules.Passes(ToClaim(line, naming), false, check)
  {
    var fact := Fact("f", "built", map[En := "built"], [], CanonicalFact, None, None, "base/common.json", Bullet);
    var rule := Rule(Drafts.EXTRACTIVE_DERIVATION, "p", "s", [], ["f"], Bullet, map[En := "shortened"]);
    request := Request("p", "s", ["f"], "balanced", En, map["f" := fact], [rule]);
    line := PresentedClaim(Bullet, "shortened", ["f"], Some(rule.identity));
    var wording := Drafts.Wording(s => s, s => [s], s => s);
    check := ClaimRules.Check(request.facts, En, Some(request.rules), wording, reader);
    assert !Drafts.KeepsClauses("shortened", "built", wording) by {
      forall start, end | 0 <= start < end <= |["built"]| ensures ["built"][start..end] == ["built"] {
      }
      assert JoinWords(["built"]) == "built" && |"built"| != |"shortened"|;
    }
    GeneratedClaimPassesExactly(line, request, naming, check);
  }
}
