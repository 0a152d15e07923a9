/** A draft's claims as one list, and drafts rebuilt from such a list. */
module DraftSlots {
  import opened Wrappers
  import opened Contracts

  function RebuildSections(sections: seq<Section>, claims: seq<Claim>): seq<Section>
    requires |claims| == |SectionClaims(sections)|
  {
    if sections == [] then []
    else
      var n := |sections[0].claims|;
      [Section(sections[0].name, claims[..n])] + RebuildSections(sections[1..], claims[n..])
  }

  /** The same document with its claims, in order, exchanged for these. */
  function Rebuild(body: DraftBody, claims: seq<Claim>): DraftBody
    requires |claims| == |DraftClaims(body)|
  {
    var n := |body.contacts|;
    body.(
      headline := claims[0], contacts := claims[1..n + 1], sections := RebuildSections(body.sections, claims[n + 1..]))
  }

  lemma {:induction false} SectionsRebuilt(sections: seq<Section>, claims: seq<Claim>)
    requires |claims| == |SectionClaims(sections)|
    ensures SectionClaims(RebuildSections(sections, claims)) == claims
    ensures claims == SectionClaims(sections) ==> RebuildSections(sections, claims) == sections
  {
    if sections != [] {
      var n := |sections[0].claims|;
      SectionsRebuilt(sections[1..], claims[n..]);
      var head, rest := Section(sections[0].name, claims[..n]), RebuildSections(sections[1..], claims[n..]);
      assert ([head] + rest)[1..] == rest;
      assert claims == claims[..n] + claims[n..];
      if claims == SectionClaims(sections) {
        assert claims[..n] == sections[0].claims && claims[n..] == SectionClaims(sections[1..]);
      }
    }
  }

  lemma {:induction false} SectionsRebuiltTwice(sections: seq<Section>, a: seq<Claim>, b: seq<Claim>)
    requires |a| == |b| == |SectionClaims(sections)|
    ensures |SectionClaims(RebuildSections(sections, a))| == |b|
    ensures RebuildSections(RebuildSections(sections, a), b) == RebuildSections(sections, b)
  {
    SectionsRebuilt(sections, a);
    if sections != [] {
      var n := |sections[0].claims|;
      SectionsRebuiltTwice(sections[1..], a[n..], b[n..]);
      var head, rest := Section(sections[0].name, a[..n]), RebuildSections(sections[1..], a[n..]);
      assert ([head] + rest)[1..] == rest;
    }
  }

  /** A rebuilt draft holds exactly the given claims. */
  lemma {:induction false} RebuiltClaims(body: DraftBody, claims: seq<Claim>)
    requires |claims| == |DraftClaims(body)|
    ensures DraftClaims(Rebuild(body, claims)) == claims
    ensures claims == DraftClaims(body) ==> Rebuild(body, claims) == body
  {
    var n := |body.contacts|;
    SectionsRebuilt(body.sections, claims[n + 1..]);
    assert claims == [claims[0]] + claims[1..n + 1] + claims[n + 1..];
    if claims == DraftClaims(body) {
      assert claims[1..n + 1] == body.contacts && claims[n + 1..] == SectionClaims(body.sections);
    }
  }

  lemma {:induction false} RebuiltTwice(body: DraftBody, a: seq<Claim>, b: seq<Claim>)
    requires |a| == |b| == |DraftClaims(body)|
    ensures |DraftClaims(Rebuild(body, a))| == |b|
    ensures Rebuild(Rebuild(body, a), b) == Rebuild(body, b)
  {
    RebuiltClaims(body, a);
    var n := |body.contacts|;
    SectionsRebuiltTwice(body.sections, a[n + 1..], b[n + 1..]);
  }

  // ----- finding a claim by its ID -----

  function SlotOf(claims: seq<Claim>, id: string): (slot: Option<nat>)
    ensures slot.Some? ==> slot.value < |claims|
  {
    if claims == [] then None
    else if claims[0].claimId == id then Some(0)
    else
      match SlotOf(claims[1..], id)
      case None => None
      case Some(k) => Some(k + 1)
  }

  lemma {:induction false} SlotIsFirst(claims: seq<Claim>, id: string)
    ensures SlotOf(claims, id).None? <==> id !in Ids(claims)
    ensures SlotOf(claims, id).Some? ==>
      && claims[SlotOf(claims, id).value].claimId == id
      && forall k :: 0 <= k < SlotOf(claims, id).value ==> claims[k].claimId != id
  {
    if claims != [] {
      SlotIsFirst(claims[1..], id);
      assert claims == [claims[0]] + claims[1..];
    }
  }

  predicate Holds(claims: seq<Claim>, id: string) {
    SlotOf(claims, id).Some?
  }

  function ReplaceFirst(claims: seq<Claim>, id: string, claim: Claim): seq<Claim>
    requires Holds(claims, id)
  {
    claims[SlotOf(claims, id).value := claim]
  }

  /** The document with the first claim of this ID exchanged. */
  function ReplaceClaim(body: DraftBody, id: string, claim: Claim): DraftBody
    requires Holds(DraftClaims(body), id)
  {
    Rebuild(body, ReplaceFirst(DraftClaims(body), id, claim))
  }

  lemma {:induction false} SlotConcat(a: seq<Claim>, b: seq<Claim>, id: string)
    ensures SlotOf(a + b, id) ==
      match SlotOf(a, id)
      case Some(k) => Some(k)
      case None =>
        match SlotOf(b, id)
        case None => None
        case Some(k) => Some(|a| + k)
  {
    if a == [] {
      assert a + b == b;
    } else {
      SlotConcat(a[1..], b, id);
      assert (a + b)[1..] == a[1..] + b;
    }
  }

  /** One list: the index of the claim with this ID, searched from the front. */
  method FindSlot(claims: seq<Claim>, id: string) returns (slot: Option<nat>)
    ensures slot == SlotOf(claims, id)
  {
    for i := 0 to |claims|
      invariant SlotOf(claims[..i], id).None?
    {
      SlotConcat(claims[..i], claims[i..], id);
      assert claims == claims[..i] + claims[i..];
      if claims[i].claimId == id {
        return Some(i);
      }
      SlotConcat(claims[..i], [claims[i]], id);
      assert claims[..i + 1] == claims[..i] + [claims[i]];
    }
    assert claims[..|claims|] == claims;
    slot := None;
  }

  lemma {:induction false} ExchangeInSections(sections: seq<Section>, i: nat, k: nat, id: string, claim: Claim)
    requires i < |sections| && SlotOf(sections[i].claims, id) == Some(k)
    requires forall j :: 0 <= j < i ==> SlotOf(sections[j].claims, id).None?
    ensures Holds(SectionClaims(sections), id)
    ensures sections[i := Section(sections[i].name, sections[i].claims[k := claim])] ==
      RebuildSections(sections, ReplaceFirst(SectionClaims(sections), id, claim))
  {
    if i == 0 {
      ExchangeInFirst(sections, k, id, claim);
    } else {
      var rest := sections[1..];
      assert rest[i - 1] == sections[i] && forall j :: 0 <= j < i - 1 ==> rest[j] == sections[j + 1];
      ExchangeInSections(rest, i - 1, k, id, claim);
      ExchangeInRest(sections, id, claim);
      ChangedFurther(sections, i, Section(sections[i].name, sections[i].claims[k := claim]));
    }
  }

  lemma {:induction false} ChangedFurther(sections: seq<Section>, i: nat, changed: Section)
    requires 0 < i < |sections|
    ensures sections[i := changed] == [sections[0]] + sections[1..][i - 1 := changed]
  {
  }

  lemma {:induction false} ExchangeInRest(sections: seq<Section>, id: string, claim: Claim)
    requires sections != [] && SlotOf(sections[0].claims, id).None? && Holds(SectionClaims(sections[1..]), id)
    ensures Holds(SectionClaims(sections), id)
    ensures RebuildSections(sections, ReplaceFirst(SectionClaims(sections), id, claim)) ==
      [sections[0]] + RebuildSections(sections[1..], ReplaceFirst(SectionClaims(sections[1..]), id, claim))
  {
    var head, rest := sections[0].claims, SectionClaims(sections[1..]);
    SlotConcat(head, rest, id);
    ExchangeBehind(head, rest, SlotOf(rest, id).value, claim);
  }

  lemma {:induction false} ExchangeInFirst(sections: seq<Section>, k: nat, id: string, claim: Claim)
    requires sections != [] && SlotOf(sections[0].claims, id) == Some(k)
    ensures Holds(SectionClaims(sections), id)
    ensures sections[0 := Section(sections[0].name, sections[0].claims[k := claim])] ==
      RebuildSections(sections, ReplaceFirst(SectionClaims(sections), id, claim))
  {
    var head, rest := sections[0].claims, SectionClaims(sections[1..]);
    SlotConcat(head, rest, id);
    ExchangeInFront(head, rest, k, claim);
    SectionsRebuilt(sections[1..], rest);
  }

  lemma {:induction false} ExchangeInFront(head: seq<Claim>, rest: seq<Claim>, k: nat, claim: Claim)
    requires k < |head|
    ensures var exchanged := (head + rest)[k := claim];
            exchanged[..|head|] == head[k := claim] && exchanged[|head|..] == rest
  {
  }

  lemma {:induction false} ExchangeBehind(head: seq<Claim>, rest: seq<Claim>, k: nat, claim: Claim)
    requires k < |rest|
    ensures var exchanged := (head + rest)[|head| + k := claim];
            exchanged[..|head|] == head && exchanged[|head|..] == rest[k := claim]
  {
  }

  /** `_replace_claim`: the headline, then the contacts, then each section in turn. */
  method ReplaceClaimSlot(body: DraftBody, id: string, claim: Claim) returns (replaced: Option<DraftBody>)
    ensures replaced == if Holds(DraftClaims(body), id) then Some(ReplaceClaim(body, id, claim)) else None
  {
    var all := DraftClaims(body);
    SlotConcat([body.headline] + body.contacts, SectionClaims(body.sections), id);
    SlotConcat([body.headline], body.contacts, id);
    if body.headline.claimId == id {
      ReplaceAt(body, 0, claim);
      return Some(body.(headline := claim));
    }
    var slot := FindSlot(body.contacts, id);
    if slot.Some? {
      ReplaceAt(body, 1 + slot.value, claim);
      return Some(body.(contacts := body.contacts[slot.value := claim]));
    }
    for i := 0 to |body.sections|
      invariant forall j :: 0 <= j < i ==> SlotOf(body.sections[j].claims, id).None?
    {
      slot := FindSlot(body.sections[i].claims, id);
      if slot.Some? {
        ExchangeInSections(body.sections, i, slot.value, id, claim);
        ReplaceInSections(body, id, claim);
        return Some(body.(sections :=
          body.sections[i := Section(body.sections[i].name, body.sections[i].claims[slot.value := claim])]));
      }
    }
    NowhereInSections(body.sections, id);
    replaced := None;
  }

  lemma {:induction false} ReplaceAt(body: DraftBody, slot: nat, claim: Claim)
    requires slot <= |body.contacts|
    ensures Rebuild(body, DraftClaims(body)[slot := claim]) ==
      if slot == 0 then body.(headline := claim)
      else body.(contacts := body.contacts[slot - 1 := claim])
  {
    var n, all := |body.contacts|, DraftClaims(body);
    var exchanged := all[slot := claim];
    assert all[n + 1..] == SectionClaims(body.sections) && all[1..n + 1] == body.contacts;
    assert exchanged[n + 1..] == all[n + 1..];
    SectionsRebuilt(body.sections, all[n + 1..]);
    if slot == 0 {
      assert exchanged[1..n + 1] == body.contacts;
    } else {
      assert exchanged[1..n + 1] == body.contacts[slot - 1 := claim];
    }
  }

  lemma {:induction false} ReplaceInSections(body: DraftBody, id: string, claim: Claim)
    requires Holds(SectionClaims(body.sections), id)
    requires body.headline.claimId != id && SlotOf(body.contacts, id).None?
    ensures Holds(DraftClaims(body), id)
    ensures ReplaceClaim(body, id, claim) ==
      body.(sections := RebuildSections(body.sections, ReplaceFirst(SectionClaims(body.sections), id, claim)))
  {
    var front, rest := [body.headline] + body.contacts, SectionClaims(body.sections);
    SlotConcat(front, rest, id);
    SlotConcat([body.headline], body.contacts, id);
    var slot, n := SlotOf(rest, id).value, |body.contacts|;
    var exchanged := (front + rest)[n + 1 + slot := claim];
    assert exchanged[n + 1..] == rest[slot := claim] && exchanged[1..n + 1] == body.contacts;
  }

  lemma {:induction false} NowhereInSections(sections: seq<Section>, id: string)
    requires forall j :: 0 <= j < |sections| ==> SlotOf(sections[j].claims, id).None?
    ensures SlotOf(SectionClaims(sections), id).None?
  {
    if sections != [] {
      NowhereInSections(sections[1..], id);
      SlotConcat(sections[0].claims, SectionClaims(sections[1..]), id);
    }
  }
}
