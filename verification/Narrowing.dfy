/** Taking lines out of a draft without rebuilding what stays
    (domain/drafts.py: keep_frame_claims, drop_claims). */
module Narrowing {
  import opened Wrappers
  import opened Contracts
  import opened Sequences

  // ----- specification -----

  predicate Stays(claim: Claim, dropped: set<string>) {
    claim.claimId !in dropped || Structural(claim.style)
  }

  /** The lines left when the named ones go; structure stays even when named. */
  function Without(claims: seq<Claim>, dropped: set<string>): seq<Claim> {
    if claims == [] then []
    else if Stays(claims[0], dropped) then [claims[0]] + Without(claims[1..], dropped)
    else Without(claims[1..], dropped)
  }

  function Narrowed(section: Section, dropped: set<string>): Section {
    Section(section.name, Without(section.claims, dropped))
  }

  /** An optional section left with nothing is dropped. */
  function WithoutSections(sections: seq<Section>, dropped: set<string>, optional: set<string>): seq<Section> {
    if sections == [] then []
    else
      var head := Narrowed(sections[0], dropped);
      var rest := WithoutSections(sections[1..], dropped, optional);
      if head.claims == [] && head.name in optional then rest else [head] + rest
  }

  function WithoutLines(body: DraftBody, dropped: set<string>, optional: set<string>): DraftBody {
    body.(sections := WithoutSections(body.sections, dropped, optional))
  }

  function OptionalNames(profile: Profile, language: Language): set<string> {
    set spec | spec in profile.sections && spec.optional :: LocalName(spec, language)
  }

  function LineIds(body: DraftBody): set<string> {
    Ids(SectionClaims(body.sections))
  }

  // ----- the source's operations -----

  /** A section's claims that were kept, and its structure. */
  method KeepClaims(claims: seq<Claim>, kept: set<string>, ghost dropped: set<string>) returns (left: seq<Claim>)
    requires forall c :: c in claims ==> (c.claimId in kept <==> c.claimId !in dropped)
    ensures left == Without(claims, dropped)
  {
    left := [];
    for k := 0 to |claims|
      invariant left == Without(claims[..k], dropped)
    {
      WithoutAppends(claims[..k], claims[k], dropped);
      assert claims[..k + 1] == claims[..k] + [claims[k]];
      if claims[k].claimId in kept || Structural(claims[k].style) {
        left := left + [claims[k]];
      }
    }
    assert claims[..|claims|] == claims;
  }

  /** The frame narrowed to the kept claims plus its structure, resealed. */
  method KeepFrameClaims(frame: Draft, profile: Profile, kept: set<string>) returns (narrowed: Draft)
    ensures narrowed ==
      Seal(WithoutLines(frame.body, LineIds(frame.body) - kept, OptionalNames(profile, frame.body.language)))
  {
    var optional := OptionalNames(profile, frame.body.language);
    ghost var dropped := LineIds(frame.body) - kept;
    var all := frame.body.sections;
    var sections: seq<Section> := [];
    for i := 0 to |all|
      invariant sections == WithoutSections(all[..i], dropped, optional)
    {
      forall c | c in all[i].claims ensures c.claimId in LineIds(frame.body) {
        ClaimInSection(all, i, c);
      }
      var claims := KeepClaims(all[i].claims, kept, dropped);
      WithoutSectionsAppends(all[..i], all[i], dropped, optional);
      assert all[..i + 1] == all[..i] + [all[i]];
      if claims != [] || all[i].name !in optional {
        sections := sections + [Section(all[i].name, claims)];
      }
    }
    assert all[..|all|] == all;
    narrowed := Seal(frame.body.(sections := sections));
  }

  /** Which sections a narrowing leaves: each with its claims that stay, except one left with
      none whose name in the document's language some optional section has. */
  lemma {:induction false} SectionsThatStay(
      sections: seq<Section>, dropped: set<string>, profile: Profile, language: Language, t: Section)
    ensures t in WithoutSections(sections, dropped, OptionalNames(profile, language)) <==>
      && (exists s :: s in sections && t == Section(s.name, Without(s.claims, dropped)))
      && (t.claims != [] ||
          forall spec :: spec in profile.sections && spec.optional ==> !HasName(spec, language, t.name))
  {
    if sections != [] {
      SectionsThatStay(sections[1..], dropped, profile, language, t);
      assert sections == [sections[0]] + sections[1..];
    }
    assert t.name in OptionalNames(profile, language) <==>
      exists spec :: spec in profile.sections && spec.optional && HasName(spec, language, t.name);
  }

  lemma {:induction false} LinesThatStay(claims: seq<Claim>, dropped: set<string>, c: Claim)
    ensures c in Without(claims, dropped) <==>
      c in claims && (c.claimId !in dropped || c.style.Heading? || c.style.Date? || c.style.Contact?)
  {
    if claims != [] {
      LinesThatStay(claims[1..], dropped, c);
      assert claims == [claims[0]] + claims[1..];
    }
  }

  datatype DropError = NotSectionClaims(ids: set<string>) | StructureCannotBeDropped(ids: set<string>)

  /** The IDs of a document's structural section lines. */
  function StructureIds(body: DraftBody): set<string> {
    set c | c in SectionClaims(body.sections) && Structural(c.style) :: c.claimId
  }

  /** The draft without the named lines, refused when one is unknown or structure.

      `held` in the source keeps one claim per ID, so the refusals are stated for drafts
      whose line IDs are unique. */
  method DropClaims(draft: Draft, profile: Profile, ids: set<string>) returns (result: Result<Draft, DropError>)
    requires UniqueLineIds(draft.body.sections)
    ensures result ==
      if !(ids <= LineIds(draft.body)) then Err(NotSectionClaims(ids - LineIds(draft.body)))
      else if ids * StructureIds(draft.body) != {} then
        Err(StructureCannotBeDropped(ids * StructureIds(draft.body)))
      else Ok(Seal(WithoutLines(draft.body, ids, OptionalNames(profile, draft.body.language))))
  {
    var held := LineIds(draft.body);
    var unknown := ids - held;
    if unknown != {} {
      var id :| id in unknown;
      assert !(ids <= held);
      return Err(NotSectionClaims(unknown));
    }
    forall id | id in ids ensures id in held {
      assert id !in unknown;
    }
    var structural := ids * StructureIds(draft.body);
    if structural != {} {
      return Err(StructureCannotBeDropped(structural));
    }
    assert held - (held - ids) == ids;
    var narrowed := KeepFrameClaims(draft, profile, held - ids);
    return Ok(narrowed);
  }

  datatype RemoveError = HeadlineIsStructural | ContactIsStructural | StructureStays | NoSuchClaim

  /** One section line removed and the draft resealed; structure may not be, and a section
      left with no claims keeps its place. Stated for drafts whose claim IDs are unique. */
  method RemoveClaim(draft: Draft, id: string) returns (result: Result<Draft, RemoveError>)
    requires DistinctIds(DraftClaims(draft.body))
    ensures result ==
      if draft.body.headline.claimId == id then Err(HeadlineIsStructural)
      else if id in Ids(draft.body.contacts) then Err(ContactIsStructural)
      else if id !in LineIds(draft.body) then Err(NoSuchClaim)
      else if id in StructureIds(draft.body) then Err(StructureStays)
      else Ok(Seal(WithoutLines(draft.body, {id}, {})))
  {
    var body := draft.body;
    if body.headline.claimId == id {
      return Err(HeadlineIsStructural);
    }
    if exists c :: c in body.contacts && c.claimId == id {
      return Err(ContactIsStructural);
    }
    SuffixIsDistinct([body.headline] + body.contacts, SectionClaims(body.sections));
    for i := 0 to |body.sections|
      invariant id !in Ids(SectionClaims(body.sections[..i]))
    {
      SplitSections(body.sections, i);
      for k := 0 to |body.sections[i].claims|
        invariant id !in Ids(body.sections[i].claims[..k])
      {
        var claim := body.sections[i].claims[k];
        if claim.claimId == id {
          OnlyOneLine(body.sections, i, k);
          if Structural(claim.style) {
            return Err(StructureStays);
          }
          var claims := body.sections[i].claims[..k] + body.sections[i].claims[k + 1..];
          RemovedIsWithout(body.sections, i, k);
          return Ok(Seal(body.(sections := body.sections[i := Section(body.sections[i].name, claims)])));
        }
        assert body.sections[i].claims[..k + 1] == body.sections[i].claims[..k] + [claim];
      }
      assert body.sections[i].claims[..|body.sections[i].claims|] == body.sections[i].claims;
      SplitSections(body.sections[..i + 1], i);
      assert body.sections[..i + 1][..i] == body.sections[..i];
    }
    assert body.sections[..|body.sections|] == body.sections;
    return Err(NoSuchClaim);
  }

  // ----- lemmas -----

  lemma {:induction false} WithoutAppends(claims: seq<Claim>, last: Claim, dropped: set<string>)
    ensures Without(claims + [last], dropped) ==
      Without(claims, dropped) + if Stays(last, dropped) then [last] else []
  {
    WithoutConcat(claims, [last], dropped);
  }

  lemma {:induction false} WithoutSectionsAppends(
      sections: seq<Section>, last: Section, dropped: set<string>, optional: set<string>)
    ensures WithoutSections(sections + [last], dropped, optional) ==
      WithoutSections(sections, dropped, optional) + WithoutSections([last], dropped, optional)
  {
    WithoutSectionsConcat(sections, [last], dropped, optional);
  }

  lemma {:induction false} ClaimInSection(sections: seq<Section>, i: nat, claim: Claim)
    requires i < |sections| && claim in sections[i].claims
    ensures claim in SectionClaims(sections)
  {
    if i > 0 {
      ClaimInSection(sections[1..], i - 1, claim);
    }
  }

  /** Dropping twice is dropping once. */
  lemma {:induction false} WithoutTwice(claims: seq<Claim>, first: set<string>, second: set<string>)
    ensures Without(Without(claims, first), second) == Without(claims, first + second)
  {
    if claims != [] {
      WithoutTwice(claims[1..], first, second);
      var rest := Without(claims[1..], first);
      assert ([claims[0]] + rest)[1..] == rest;
    }
  }

  lemma {:induction false} WithoutConcat(a: seq<Claim>, b: seq<Claim>, dropped: set<string>)
    ensures Without(a + b, dropped) == Without(a, dropped) + Without(b, dropped)
  {
    if a == [] {
      assert a + b == b;
    } else {
      WithoutConcat(a[1..], b, dropped);
      assert (a + b)[0] == a[0] && (a + b)[1..] == a[1..] + b;
    }
  }

  lemma {:induction false} WithoutSectionsConcat(
      a: seq<Section>, b: seq<Section>, dropped: set<string>, optional: set<string>)
    ensures WithoutSections(a + b, dropped, optional) ==
      WithoutSections(a, dropped, optional) + WithoutSections(b, dropped, optional)
  {
    if a == [] {
      assert a + b == b;
    } else {
      WithoutSectionsConcat(a[1..], b, dropped, optional);
      assert a + b == [a[0]] + (a[1..] + b) && a == [a[0]] + a[1..];
      WithoutSectionsFront(a[0], a[1..] + b, dropped, optional);
      WithoutSectionsFront(a[0], a[1..], dropped, optional);
      Associates(KeptSection(a[0], dropped, optional), WithoutSections(a[1..], dropped, optional),
                 WithoutSections(b, dropped, optional));
    }
  }

  /** What narrowing leaves of one section. */
  function KeptSection(section: Section, dropped: set<string>, optional: set<string>): seq<Section> {
    var head := Narrowed(section, dropped);
    if head.claims == [] && head.name in optional then [] else [head]
  }

  lemma {:induction false} WithoutSectionsFront(
      section: Section, rest: seq<Section>, dropped: set<string>, optional: set<string>)
    ensures WithoutSections([section] + rest, dropped, optional)
         == KeptSection(section, dropped, optional) + WithoutSections(rest, dropped, optional)
  {
    assert ([section] + rest)[1..] == rest;
  }

  lemma {:induction false} WithoutMembers(claims: seq<Claim>, dropped: set<string>)
    ensures |Without(claims, dropped)| <= |claims|
    ensures forall c :: c in Without(claims, dropped) <==> c in claims && Stays(c, dropped)
  {
    if claims != [] {
      WithoutMembers(claims[1..], dropped);
      assert claims == [claims[0]] + claims[1..];
    }
  }

  lemma {:induction false} WithoutSectionsTwice(
      sections: seq<Section>, first: set<string>, second: set<string>, optional: set<string>)
    ensures WithoutSections(WithoutSections(sections, first, optional), second, optional) ==
      WithoutSections(sections, first + second, optional)
  {
    if sections != [] {
      WithoutTwice(sections[0].claims, first, second);
      WithoutSectionsTwice(sections[1..], first, second, optional);
      var head, rest := Narrowed(sections[0], first), WithoutSections(sections[1..], first, optional);
      assert ([head] + rest)[1..] == rest;
    }
  }

  /** A section of the narrowed document is a narrowed section of the original. */
  lemma {:induction false} NarrowedSections(
      sections: seq<Section>, dropped: set<string>, optional: set<string>, section: Section)
    ensures section in WithoutSections(sections, dropped, optional) <==>
      exists s :: s in sections && section == Narrowed(s, dropped)
        && (section.claims != [] || section.name !in optional)
  {
    if sections != [] {
      NarrowedSections(sections[1..], dropped, optional, section);
      assert sections == [sections[0]] + sections[1..];
    }
  }

  lemma {:induction false} WithoutKeepsDistinct(claims: seq<Claim>, dropped: set<string>)
    requires DistinctIds(claims)
    ensures DistinctIds(Without(claims, dropped))
  {
    if claims != [] {
      WithoutKeepsDistinct(claims[1..], dropped);
      WithoutMembers(claims[1..], dropped);
      forall c | c in Without(claims[1..], dropped) ensures c.claimId != claims[0].claimId {
        var k :| 1 <= k < |claims| && claims[k] == c;
      }
    }
  }

  /** The lines of the narrowed document are the narrowed lines of the original. */
  lemma {:induction false} NarrowedLines(sections: seq<Section>, dropped: set<string>, optional: set<string>)
    ensures SectionClaims(WithoutSections(sections, dropped, optional)) == Without(SectionClaims(sections), dropped)
  {
    if sections != [] {
      NarrowedLines(sections[1..], dropped, optional);
      var head, rest := Narrowed(sections[0], dropped), WithoutSections(sections[1..], dropped, optional);
      assert ([head] + rest)[1..] == rest;
      WithoutConcat(sections[0].claims, SectionClaims(sections[1..]), dropped);
    }
  }

  lemma {:induction false} WithoutKeepsUniqueIds(sections: seq<Section>, dropped: set<string>, optional: set<string>)
    requires UniqueLineIds(sections)
    ensures UniqueLineIds(WithoutSections(sections, dropped, optional))
  {
    NarrowedLines(sections, dropped, optional);
    WithoutKeepsDistinct(SectionClaims(sections), dropped);
  }

  // ----- removing one line -----

  lemma {:induction false} SuffixIsDistinct(a: seq<Claim>, b: seq<Claim>)
    requires DistinctIds(a + b)
    ensures DistinctIds(a) && DistinctIds(b) && Ids(a) !! Ids(b)
  {
    assert forall i :: 0 <= i < |a| ==> (a + b)[i] == a[i];
    assert forall i :: 0 <= i < |b| ==> (a + b)[|a| + i] == b[i];
  }

  lemma {:induction false} SectionClaimsConcat(a: seq<Section>, b: seq<Section>)
    ensures SectionClaims(a + b) == SectionClaims(a) + SectionClaims(b)
  {
    if a == [] {
      assert a + b == b;
    } else {
      SectionClaimsConcat(a[1..], b);
      assert (a + b)[0] == a[0] && (a + b)[1..] == a[1..] + b;
      Associates(a[0].claims, SectionClaims(a[1..]), SectionClaims(b));
    }
  }

  lemma {:induction false} SplitSections(sections: seq<Section>, i: nat)
    requires i < |sections|
    ensures SectionClaims(sections) ==
      SectionClaims(sections[..i]) + (sections[i].claims + SectionClaims(sections[i + 1..]))
  {
    assert sections == sections[..i] + sections[i..];
    SectionClaimsConcat(sections[..i], sections[i..]);
    assert sections[i..][1..] == sections[i + 1..];
  }

  lemma {:induction false} OnlyOneLine(sections: seq<Section>, i: nat, k: nat)
    requires UniqueLineIds(sections) && i < |sections| && k < |sections[i].claims|
    ensures sections[i].claims[k] in SectionClaims(sections)
    ensures forall c :: c in SectionClaims(sections) && c.claimId == sections[i].claims[k].claimId ==>
      c == sections[i].claims[k]
  {
    var line, all := sections[i].claims[k], SectionClaims(sections);
    ClaimInSection(sections, i, line);
    var at :| 0 <= at < |all| && all[at] == line;
    forall c | c in all && c.claimId == line.claimId ensures c == line {
      var j :| 0 <= j < |all| && all[j] == c;
      assert j == at;
    }
  }

  lemma {:induction false} UnnamedStay(claims: seq<Claim>, dropped: set<string>)
    requires Ids(claims) !! dropped
    ensures Without(claims, dropped) == claims
  {
    if claims != [] {
      assert claims == [claims[0]] + claims[1..];
      UnnamedStay(claims[1..], dropped);
    }
  }

  lemma {:induction false} UnnamedSectionsStay(sections: seq<Section>, dropped: set<string>)
    requires Ids(SectionClaims(sections)) !! dropped
    ensures WithoutSections(sections, dropped, {}) == sections
  {
    if sections != [] {
      var head, rest := sections[0].claims, SectionClaims(sections[1..]);
      assert forall c :: c in head || c in rest ==> c in head + rest;
      UnnamedStay(head, dropped);
      UnnamedSectionsStay(sections[1..], dropped);
    }
  }

  lemma {:induction false} CutLine(own: seq<Claim>, k: nat)
    requires DistinctIds(own) && k < |own| && !Structural(own[k].style)
    ensures own[..k] + own[k + 1..] == Without(own, {own[k].claimId})
  {
    var before, after := own[..k], own[k + 1..];
    assert own == before + ([own[k]] + after);
    UnnamedStay(before, {own[k].claimId});
    UnnamedStay(after, {own[k].claimId});
    WithoutConcat(before, [own[k]] + after, {own[k].claimId});
    WithoutConcat([own[k]], after, {own[k].claimId});
  }

  lemma {:induction false} OthersDoNotHold(sections: seq<Section>, i: nat, k: nat)
    requires UniqueLineIds(sections) && i < |sections| && k < |sections[i].claims|
    ensures DistinctIds(sections[i].claims)
    ensures sections[i].claims[k].claimId !in Ids(SectionClaims(sections[..i]))
    ensures sections[i].claims[k].claimId !in Ids(SectionClaims(sections[i + 1..]))
  {
    var own, after := sections[i].claims, SectionClaims(sections[i + 1..]);
    SplitSections(sections, i);
    SuffixIsDistinct(SectionClaims(sections[..i]), own + after);
    SuffixIsDistinct(own, after);
    assert own[k] in own && own[k] in own + after;
  }

  /** Cutting one line out of its section is the narrowing that names it. */
  lemma {:induction false} RemovedIsWithout(sections: seq<Section>, i: nat, k: nat)
    requires UniqueLineIds(sections) && i < |sections| && k < |sections[i].claims|
    requires !Structural(sections[i].claims[k].style)
    ensures sections[i := Section(sections[i].name, sections[i].claims[..k] + sections[i].claims[k + 1..])] ==
      WithoutSections(sections, {sections[i].claims[k].claimId}, {})
  {
    var id := sections[i].claims[k].claimId;
    var before, after := sections[..i], sections[i + 1..];
    var cut := Section(sections[i].name, sections[i].claims[..k] + sections[i].claims[k + 1..]);
    OthersDoNotHold(sections, i, k);
    CutSection(sections[i], k);
    OnlyOneNarrowed(before, sections[i], after, id);
    SplitAround(sections, i, cut);
  }

  lemma {:induction false} SplitAround<T>(all: seq<T>, i: nat, other: T)
    requires i < |all|
    ensures all == all[..i] + ([all[i]] + all[i + 1..]) && all[i := other] == all[..i] + ([other] + all[i + 1..])
  {
  }

  lemma {:induction false} CutSection(section: Section, k: nat)
    requires DistinctIds(section.claims) && k < |section.claims| && !Structural(section.claims[k].style)
    ensures KeptSection(section, {section.claims[k].claimId}, {})
         == [Section(section.name, section.claims[..k] + section.claims[k + 1..])]
  {
    CutLine(section.claims, k);
  }

  lemma {:induction false} OnlyOneNarrowed(before: seq<Section>, section: Section, after: seq<Section>, id: string)
    requires id !in Ids(SectionClaims(before)) && id !in Ids(SectionClaims(after))
    ensures WithoutSections(before + ([section] + after), {id}, {}) == before + (KeptSection(section, {id}, {}) + after)
  {
    UnnamedSectionsStay(before, {id});
    UnnamedSectionsStay(after, {id});
    WithoutSectionsConcat(before, [section] + after, {id}, {});
    WithoutSectionsFront(section, after, {id}, {});
  }
}
