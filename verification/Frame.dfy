/** What a section may carry, and the structure it always keeps (domain/frame.py). */
module Frame {
  import opened Wrappers
  import opened Contracts
  import opened PageFit
  import opened Presentations

  // ----- laying out a choice -----

  predicate IsCanonical(facts: FactStore, factId: string) {
    factId in facts && facts[factId].status.CanonicalFact?
  }

  predicate StructuralFact(facts: FactStore, factId: string)
    requires factId in facts
  {
    Structural(facts[factId].style) || ROLE_BLOCK_TAG in facts[factId].tags
  }

  /** The facts of `ids`, in order, that are in `kept`. */
  function Filter(ids: seq<string>, kept: set<string>): seq<string> {
    if ids == [] then []
    else if ids[0] in kept then [ids[0]] + Filter(ids[1..], kept)
    else Filter(ids[1..], kept)
  }

  function CanonicalIds(ids: seq<string>, facts: FactStore): set<string> {
    set id | id in ids && IsCanonical(facts, id)
  }

  /** What a section shows of its canonical facts: its structure, and what was picked - or,
      when nothing was chosen yet, everything the language can say. */
  function Shown(spec: SectionSpec, facts: FactStore, language: Language, picked: Option<set<string>>): set<string> {
    set id | id in spec.factIds && IsCanonical(facts, id) &&
      (StructuralFact(facts, id) ||
        match picked
        case None => HasRendering(facts[id], language)
        case Some(ids) => id in ids)
  }

  function Layout(spec: SectionSpec, facts: FactStore, language: Language, picked: Option<set<string>>): seq<string> {
    Filter(spec.factIds, Shown(spec, facts, language, picked))
  }

  datatype FrameError =
    | NoSuchSections(names: set<string>)
    | NotOffered(section: string, factIds: set<string>)
    | MissingFactRendering(factId: string, language: Language)

  /** What was picked for a section: nothing yet, or its entry, or no entry. */
  function PickedFor(chosen: Option<map<string, set<string>>>, name: string): Option<set<string>> {
    match chosen
    case None => None
    case Some(choice) => Some(if name in choice then choice[name] else {})
  }

  predicate Offered(spec: SectionSpec, facts: FactStore, chosen: Option<map<string, set<string>>>) {
    match PickedFor(chosen, spec.nameEn)
    case None => true
    case Some(picked) => picked <= CanonicalIds(spec.factIds, facts)
  }

  predicate Picked(chosen: map<string, set<string>>, name: string, id: string) {
    name in chosen && id in chosen[name]
  }

  /** The fact belongs in the section: a canonical fact of its pool that is structure - a
      heading, a date, a contact line, a historical title - or was picked for it; with no
      choice made, or that the language can say. */
  predicate Belongs(
      id: string, spec: SectionSpec, facts: FactStore, language: Language, chosen: Option<map<string, set<string>>>)
  {
    && id in spec.factIds && id in facts && facts[id].status.CanonicalFact?
    && (|| facts[id].style.Heading? || facts[id].style.Date? || facts[id].style.Contact?
        || "historical-title" in facts[id].tags
        || if chosen.Some? then Picked(chosen.value, spec.nameEn, id) else CanSay(facts, id, language))
  }

  /** What the choice picks for the section is of its pool's canonical facts, and the language
      can say all that then belongs. */
  ghost predicate SectionAcceptable(
      spec: SectionSpec, facts: FactStore, language: Language, chosen: Option<map<string, set<string>>>)
  {
    && (chosen.Some? ==> forall id :: Picked(chosen.value, spec.nameEn, id) ==>
          id in spec.factIds && id in facts && facts[id].status.CanonicalFact?)
    && forall id :: Belongs(id, spec, facts, language, chosen) ==> CanSay(facts, id, language)
  }

  /** A choice the Profile offers and the language can say. */
  ghost predicate Acceptable(
      specs: seq<SectionSpec>, facts: FactStore, language: Language, chosen: Option<map<string, set<string>>>)
  {
    && (chosen.Some? ==> forall name :: name in chosen.value ==> exists spec :: spec in specs && spec.nameEn == name)
    && forall spec :: spec in specs ==> SectionAcceptable(spec, facts, language, chosen)
  }

  /** These facts are exactly those of the pool that belong, in the pool's order. */
  ghost predicate InPoolOrder(
      ids: seq<string>, spec: SectionSpec, facts: FactStore, language: Language,
      chosen: Option<map<string, set<string>>>)
  {
    exists places :: PicksOut(ids, spec.factIds, places) &&
      forall p :: 0 <= p < |spec.factIds| ==> (p in places <==> Belongs(spec.factIds[p], spec, facts, language, chosen))
  }

  /** `ids` are the pool's facts at these ascending places. */
  predicate PicksOut(ids: seq<string>, pool: seq<string>, places: seq<nat>) {
    && |places| == |ids|
    && (forall k :: 0 <= k < |places| ==> places[k] < |pool| && ids[k] == pool[places[k]])
    && forall j, k :: 0 <= j < k < |places| ==> places[j] < places[k]
  }

  lemma {:induction false} FilterPicksOut(pool: seq<string>, kept: set<string>) returns (places: seq<nat>)
    ensures PicksOut(Filter(pool, kept), pool, places)
    ensures forall p :: 0 <= p < |pool| ==> (p in places <==> pool[p] in kept)
  {
    if pool == [] {
      places := [];
    } else {
      var later := FilterPicksOut(pool[1..], kept);
      places := OneEarlier(Filter(pool[1..], kept), pool, later, pool[0] in kept);
      forall p | 0 < p < |pool|
        ensures p in places <==> pool[p] in kept
      {
        assert pool[1..][p - 1] == pool[p];
      }
    }
  }

  /** Places in the rest of a pool, as places in the pool - with its first fact or without. */
  lemma {:induction false} OneEarlier(ids: seq<string>, pool: seq<string>, later: seq<nat>, first: bool)
    returns (places: seq<nat>)
    requires pool != [] && PicksOut(ids, pool[1..], later)
    ensures PicksOut(if first then [pool[0]] + ids else ids, pool, places)
    ensures 0 in places <==> first
    ensures forall p :: 0 < p ==> (p in places <==> p - 1 in later)
  {
    var shifted := seq(|later|, k requires 0 <= k < |later| => later[k] + 1);
    places := if first then [0] + shifted else shifted;
    forall p | 0 < p
      ensures p in places <==> p - 1 in later
    {
      if p - 1 in later {
        var k :| 0 <= k < |later| && later[k] == p - 1;
        assert shifted[k] == p && p in shifted;
      }
    }
  }

  lemma {:induction false} ShownExactly(
      id: string, spec: SectionSpec, facts: FactStore, language: Language, chosen: Option<map<string, set<string>>>)
    ensures id in Shown(spec, facts, language, PickedFor(chosen, spec.nameEn)) <==>
      Belongs(id, spec, facts, language, chosen)
  {
  }

  /** What a section's layout is, in the terms of the choice. */
  lemma {:induction false} LayoutIsInPoolOrder(
      spec: SectionSpec, facts: FactStore, language: Language, chosen: Option<map<string, set<string>>>)
    ensures InPoolOrder(
      Layout(spec, facts, language, PickedFor(chosen, spec.nameEn)), spec, facts, language, chosen)
  {
    var places := FilterPicksOut(spec.factIds, Shown(spec, facts, language, PickedFor(chosen, spec.nameEn)));
    forall p | 0 <= p < |spec.factIds|
      ensures p in places <==> Belongs(spec.factIds[p], spec, facts, language, chosen)
    {
      ShownExactly(spec.factIds[p], spec, facts, language, chosen);
    }
  }

  predicate SpecAccepts(
      spec: SectionSpec, facts: FactStore, language: Language, chosen: Option<map<string, set<string>>>)
  {
    && Offered(spec, facts, chosen)
    && forall id :: id in Shown(spec, facts, language, PickedFor(chosen, spec.nameEn)) ==>
         HasRendering(facts[id], language)
  }

  lemma {:induction false} SpecAcceptsExactly(
      spec: SectionSpec, facts: FactStore, language: Language, chosen: Option<map<string, set<string>>>)
    ensures SpecAccepts(spec, facts, language, chosen) <==> SectionAcceptable(spec, facts, language, chosen)
  {
    forall id
      ensures id in Shown(spec, facts, language, PickedFor(chosen, spec.nameEn)) <==>
        Belongs(id, spec, facts, language, chosen)
    {
      ShownExactly(id, spec, facts, language, chosen);
    }
    if chosen.Some? {
      var picked := PickedFor(chosen, spec.nameEn).value;
      forall id
        ensures Picked(chosen.value, spec.nameEn, id) <==> id in picked
      {
      }
    }
  }

  predicate DistinctEnglishNames(specs: seq<SectionSpec>) {
    forall i, j :: 0 <= i < j < |specs| ==> specs[i].nameEn != specs[j].nameEn
  }

  /** Each section's facts in pool order: the chosen ones plus its structure. A choice is
      laid out exactly when it is acceptable; nothing offered is dropped silently. */
  method LayOutChoice(
      specs: seq<SectionSpec>, facts: FactStore, language: Language, chosen: Option<map<string, set<string>>>)
    returns (laidOut: Result<map<string, seq<string>>, FrameError>)
    requires DistinctEnglishNames(specs)
    ensures laidOut.Ok? <==> Acceptable(specs, facts, language, chosen)
    ensures laidOut.Ok? ==> forall spec :: spec in specs ==>
      && spec.nameEn in laidOut.value
      && laidOut.value[spec.nameEn] == Layout(spec, facts, language, PickedFor(chosen, spec.nameEn))
      && InPoolOrder(laidOut.value[spec.nameEn], spec, facts, language, chosen)
    ensures laidOut.Err? && laidOut.error.MissingFactRendering? ==>
      exists spec :: spec in specs
        && Belongs(laidOut.error.factId, spec, facts, language, chosen)
        && !CanSay(facts, laidOut.error.factId, language)
  {
    forall spec | spec in specs
      ensures SpecAccepts(spec, facts, language, chosen) <==> SectionAcceptable(spec, facts, language, chosen)
    {
      SpecAcceptsExactly(spec, facts, language, chosen);
    }
    if chosen.Some? {
      var names := set spec | spec in specs :: spec.nameEn;
      var unknown := chosen.value.Keys - names;
      if unknown != {} {
        var name :| name in unknown;
        assert name in chosen.value && forall spec :: spec in specs ==> spec.nameEn != name;
        return Err(NoSuchSections(unknown));
      }
      forall name | name in chosen.value ensures exists spec :: spec in specs && spec.nameEn == name {
        assert name !in unknown;
      }
    }
    var result: map<string, seq<string>> := map[];
    for i := 0 to |specs|
      invariant forall k :: 0 <= k < i ==>
        && Offered(specs[k], facts, chosen)
        && specs[k].nameEn in result
        && result[specs[k].nameEn] == Layout(specs[k], facts, language, PickedFor(chosen, specs[k].nameEn))
    {
      var spec := specs[i];
      var picked := PickedFor(chosen, spec.nameEn);
      if picked.Some? {
        var outside := picked.value - CanonicalIds(spec.factIds, facts);
        if outside != {} {
          assert !SpecAccepts(spec, facts, language, chosen);
          return Err(NotOffered(spec.nameEn, outside));
        }
        forall id | id in picked.value ensures id in CanonicalIds(spec.factIds, facts) {
          assert id !in outside;
        }
      }
      result := result[spec.nameEn := Layout(spec, facts, language, picked)];
    }
    for i := 0 to |specs|
      invariant forall k :: 0 <= k < i ==>
        forall id :: id in Shown(specs[k], facts, language, PickedFor(chosen, specs[k].nameEn)) ==>
          HasRendering(facts[id], language)
    {
      var shown := Shown(specs[i], facts, language, PickedFor(chosen, specs[i].nameEn));
      var mute := set id | id in shown && !HasRendering(facts[id], language);
      if mute != {} {
        var id :| id in mute;
        ShownExactly(id, specs[i], facts, language, chosen);
        assert !SpecAccepts(specs[i], facts, language, chosen);
        return Err(MissingFactRendering(id, language));
      }
      forall id | id in shown ensures HasRendering(facts[id], language) {
        assert id !in mute;
      }
    }
    forall spec | spec in specs
      ensures SpecAccepts(spec, facts, language, chosen)
      ensures InPoolOrder(result[spec.nameEn], spec, facts, language, chosen)
    {
      LayoutIsInPoolOrder(spec, facts, language, chosen);
    }
    laidOut := Ok(result);
  }

  // ----- headings nothing follows -----

  predicate Dangles(block: Block) {
    block.heading.Some? && block.lines == []
  }

  /** Block k is the first whose heading nothing supports. */
  predicate FirstDangling(blocks: seq<Block>, k: int) {
    0 <= k < |blocks| && Dangles(blocks[k]) && forall j :: 0 <= j < k ==> !Dangles(blocks[j])
  }

  /** Whether evidence follows the open heading, and the first heading it does not. */
  method DanglingHeading(claims: seq<Claim>) returns (heading: Option<string>)
    ensures heading.None? <==> forall b :: b in Blocks(claims) ==> !Dangles(b)
    ensures heading.Some? ==> exists k ::
      FirstDangling(Blocks(claims), k) && Blocks(claims)[k].heading.value.text == heading.value
  {
    var open: Option<Claim> := None;
    var supported := true;
    ghost var done: seq<Block> := [];
    ghost var lines: seq<Claim> := [];
    assert [] + Lead(claims) == Lead(claims);
    assert [] + OpenBlocks(None, [], claims) == Blocks(claims);
    for i := 0 to |claims|
      invariant supported <==> open.None? || lines != []
      invariant done + OpenBlocks(open, lines, claims[i..]) == Blocks(claims)
      invariant forall b :: b in done ==> !Dangles(b)
    {
      var claim := claims[i];
      OpenBlockStep(done, open, lines, claims, i);
      if claim.style.Heading? {
        if open.Some? && !supported {
          OpenDangles(done, open.value, OpenBlocks(Some(claim), [], claims[i + 1..]), Blocks(claims));
          return Some(open.value.text);
        }
        SupportedCloses(done, open, lines);
        done := CloseBlock(done, open, lines);
        open, supported, lines := Some(claim), false, [];
      } else if !Structural(claim.style) {
        supported, lines := true, lines + [claim];
      }
    }
    OpenBlocksAtEnd(done, open, lines);
    SupportedCloses(done, open, lines);
    heading := if supported || open.None? then None else Some(open.value.text);
    if heading.Some? {
      OpenDangles(done, open.value, [], Blocks(claims));
    }
  }

  lemma {:induction false} SupportedCloses(done: seq<Block>, open: Option<Claim>, lines: seq<Claim>)
    requires forall b :: b in done ==> !Dangles(b)
    ensures (forall b :: b in CloseBlock(done, open, lines) ==> !Dangles(b)) <==> open.None? || lines != []
  {
    var closed := CloseBlock(done, open, lines);
    if open.Some? && lines == [] {
      assert closed[|done|] == Block(open, lines) && Dangles(closed[|done|]) && closed[|done|] in closed;
    } else {
      assert closed == done || closed == done + [Block(open, lines)];
    }
  }

  /** A heading closed without a line, after blocks that all have theirs, is the first to dangle. */
  lemma {:induction false} OpenDangles(done: seq<Block>, open: Claim, rest: seq<Block>, blocks: seq<Block>)
    requires blocks == CloseBlock(done, Some(open), []) + rest && forall b :: b in done ==> !Dangles(b)
    ensures FirstDangling(blocks, |done|) && blocks[|done|].heading.value.text == open.text
  {
    assert blocks[|done|] == Block(Some(open), []);
    assert forall j :: 0 <= j < |done| ==> blocks[j] == done[j];
  }

  // ----- lines under the wrong role -----

  /** The last role title of a list of facts: the role its last fact belongs to. */
  function LastTitle(ids: seq<string>, facts: FactStore): Option<string> {
    if ids == [] then None
    else if IsRoleTitle(facts, ids[|ids| - 1]) then Some(ids[|ids| - 1])
    else LastTitle(ids[..|ids| - 1], facts)
  }

  /** The role the pool's order gives a fact. */
  function RoleOf(pool: seq<string>, facts: FactStore, id: string): Option<string>
    requires id in pool
  {
    LastTitle(pool[..IndexOf(pool, id) + 1], facts)
  }

  function FirstTitle(ids: seq<string>, facts: FactStore): Option<string> {
    if ids == [] then None
    else if IsRoleTitle(facts, ids[0]) then Some(ids[0])
    else FirstTitle(ids[1..], facts)
  }

  /** The role the last of these claims sits under. */
  function RoleAbove(claims: seq<Claim>, facts: FactStore): Option<string> {
    if claims == [] then None
    else
      var title := FirstTitle(claims[|claims| - 1].factIds, facts);
      if title.Some? then title else RoleAbove(claims[..|claims| - 1], facts)
  }

  /** The last of these claims links a fact of another role than the one it sits under. */
  predicate LastMisplaced(claims: seq<Claim>, pool: seq<string>, facts: FactStore)
    requires claims != []
  {
    exists id :: id in claims[|claims| - 1].factIds && id in pool && RoleOf(pool, facts, id) != RoleAbove(claims, facts)
  }

  predicate WellPlaced(claims: seq<Claim>, pool: seq<string>, facts: FactStore) {
    forall k :: 1 <= k <= |claims| ==> !LastMisplaced(claims[..k], pool, facts)
  }

  function MisplacedIds(claims: seq<Claim>, pool: seq<string>, facts: FactStore): seq<string> {
    if claims == [] then []
    else
      var earlier := MisplacedIds(claims[..|claims| - 1], pool, facts);
      if LastMisplaced(claims, pool, facts) then earlier + [claims[|claims| - 1].claimId] else earlier
  }

  lemma {:induction false} NoneMisplaced(claims: seq<Claim>, pool: seq<string>, facts: FactStore)
    ensures MisplacedIds(claims, pool, facts) == [] <==> WellPlaced(claims, pool, facts)
  {
    if claims != [] {
      NoneMisplaced(claims[..|claims| - 1], pool, facts);
      WellPlacedSplits(claims, pool, facts);
    }
  }

  /** Which role each fact of the pool belongs to. */
  method RoleIndex(pool: seq<string>, facts: FactStore) returns (roleOf: map<string, Option<string>>)
    requires Distinct(pool)
    ensures forall id :: id in roleOf <==> id in pool
    ensures forall id :: id in pool ==> roleOf[id] == RoleOf(pool, facts, id)
  {
    roleOf := map[];
    var current: Option<string> := None;
    for i := 0 to |pool|
      invariant current == LastTitle(pool[..i], facts)
      invariant forall id :: id in roleOf <==> id in pool[..i]
      invariant forall id :: id in roleOf ==> id in pool && roleOf[id] == RoleOf(pool, facts, id)
    {
      RoleAt(pool, facts, i);
      InPrefix(pool, i);
      if IsRoleTitle(facts, pool[i]) {
        current := Some(pool[i]);
      }
      roleOf := roleOf[pool[i] := current];
    }
    assert pool[..|pool|] == pool;
  }

  lemma {:induction false} RoleAt(pool: seq<string>, facts: FactStore, i: nat)
    requires Distinct(pool) && i < |pool|
    ensures LastTitle(pool[..i + 1], facts)
         == if IsRoleTitle(facts, pool[i]) then Some(pool[i]) else LastTitle(pool[..i], facts)
    ensures pool[i] in pool && RoleOf(pool, facts, pool[i]) == LastTitle(pool[..i + 1], facts)
  {
    FirstIndex(pool, i);
    assert pool[..i + 1][..i] == pool[..i];
  }

  lemma {:induction false} InPrefix(pool: seq<string>, i: nat)
    requires i < |pool|
    ensures forall id :: id in pool[..i + 1] <==> id in pool[..i] || id == pool[i]
  {
    assert pool[..i + 1] == pool[..i] + [pool[i]];
  }

  /** The last line is placed on its own; the lines before it do not depend on it. */
  lemma {:induction false} WellPlacedSplits(claims: seq<Claim>, pool: seq<string>, facts: FactStore)
    requires claims != []
    ensures WellPlaced(claims, pool, facts) <==>
      WellPlaced(claims[..|claims| - 1], pool, facts) && !LastMisplaced(claims, pool, facts)
  {
    var front := claims[..|claims| - 1];
    assert claims[..|claims|] == claims;
    assert forall k :: 1 <= k <= |front| ==> front[..k] == claims[..k];
  }

  /** Claims that sit under a role other than the one their facts belong to. */
  method MisplacedRoleClaims(claims: seq<Claim>, pool: seq<string>, facts: FactStore)
    returns (misplaced: seq<string>)
    requires Distinct(pool)
    ensures misplaced == MisplacedIds(claims, pool, facts)
    ensures misplaced == [] <==> WellPlaced(claims, pool, facts)
  {
    var roleOf := RoleIndex(pool, facts);
    misplaced := [];
    var current: Option<string> := None;
    for k := 0 to |claims|
      invariant current == RoleAbove(claims[..k], facts)
      invariant misplaced == MisplacedIds(claims[..k], pool, facts)
    {
      assert claims[..k + 1][..k] == claims[..k];
      var title := FirstTitle(claims[k].factIds, facts);
      if title.Some? {
        current := title;
      }
      if exists id :: id in claims[k].factIds && id in roleOf && roleOf[id] != current {
        misplaced := misplaced + [claims[k].claimId];
      }
    }
    assert claims[..|claims|] == claims;
    NoneMisplaced(claims, pool, facts);
  }

  lemma {:induction false} FirstIndex(pool: seq<string>, i: nat)
    requires Distinct(pool) && i < |pool|
    ensures pool[i] in pool && IndexOf(pool, pool[i]) == i
  {
    var at := IndexOf(pool, pool[i]);
    assert pool[at] == pool[i];
  }
}
