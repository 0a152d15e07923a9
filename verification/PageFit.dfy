/** Which line a CV gives up first when it runs past its page limit (domain/page_fit.py). */
module PageFit {
  import opened Wrappers
  import opened Contracts

  /** A heading and the lines under it, or a section's lines above its first heading. */
  datatype Block = Block(heading: Option<Claim>, lines: seq<Claim>)

  // ----- a section's blocks -----

  /** The evidence lines before the first heading. */
  function Lead(claims: seq<Claim>): seq<Claim> {
    if claims == [] || claims[0].style.Heading? then []
    else if Structural(claims[0].style) then Lead(claims[1..])
    else [claims[0]] + Lead(claims[1..])
  }

  /** The claims from the first heading on. */
  function FromHeading(claims: seq<Claim>): (rest: seq<Claim>)
    ensures |rest| <= |claims|
    ensures rest != [] ==> rest[0].style.Heading?
  {
    if claims == [] || claims[0].style.Heading? then claims else FromHeading(claims[1..])
  }

  function HeadedBlocks(claims: seq<Claim>): seq<Block>
    requires claims != [] ==> claims[0].style.Heading?
    decreases |claims|
  {
    if claims == [] then []
    else [Block(Some(claims[0]), Lead(claims[1..]))] + HeadedBlocks(FromHeading(claims[1..]))
  }

  function LeadBlocks(lines: seq<Claim>): seq<Block> {
    if lines == [] then [] else [Block(None, lines)]
  }

  function Blocks(claims: seq<Claim>): seq<Block> {
    LeadBlocks(Lead(claims)) + HeadedBlocks(FromHeading(claims))
  }

  /** The blocks still to come once `heading` is open with `lines` under it. */
  function OpenBlocks(heading: Option<Claim>, lines: seq<Claim>, rest: seq<Claim>): seq<Block> {
    var all := lines + Lead(rest);
    (if heading.Some? || all != [] then [Block(heading, all)] else []) + HeadedBlocks(FromHeading(rest))
  }

  /** The blocks once the open one is closed; one with neither heading nor line is none. */
  function CloseBlock(done: seq<Block>, heading: Option<Claim>, lines: seq<Claim>): seq<Block> {
    if heading.Some? || lines != [] then done + [Block(heading, lines)] else done
  }

  lemma {:induction false} OpenBlockStep(
      done: seq<Block>, open: Option<Claim>, lines: seq<Claim>, claims: seq<Claim>, i: nat)
    requires i < |claims|
    ensures done + OpenBlocks(open, lines, claims[i..]) ==
      if claims[i].style.Heading? then
        CloseBlock(done, open, lines) + OpenBlocks(Some(claims[i]), [], claims[i + 1..])
      else if Structural(claims[i].style) then done + OpenBlocks(open, lines, claims[i + 1..])
      else done + OpenBlocks(open, lines + [claims[i]], claims[i + 1..])
  {
    assert claims[i..][1..] == claims[i + 1..];
    assert lines + [] == lines;
    assert [] + Lead(claims[i + 1..]) == Lead(claims[i + 1..]);
    assert done + [] == done;
    assert (lines + [claims[i]]) + Lead(claims[i + 1..]) == lines + ([claims[i]] + Lead(claims[i + 1..]));
  }

  /** The source's one pass over a section. */
  method BlocksOf(claims: seq<Claim>) returns (blocks: seq<Block>)
    ensures blocks == Blocks(claims)
  {
    blocks := [];
    var heading: Option<Claim> := None;
    var lines: seq<Claim> := [];
    assert [] + Lead(claims) == Lead(claims);
    for i := 0 to |claims|
      invariant blocks + OpenBlocks(heading, lines, claims[i..]) == Blocks(claims)
    {
      var claim := claims[i];
      OpenBlockStep(blocks, heading, lines, claims, i);
      if claim.style.Heading? {
        if heading.Some? || lines != [] {
          blocks := blocks + [Block(heading, lines)];
        }
        heading, lines := Some(claim), [];
      } else if !Structural(claim.style) {
        lines := lines + [claim];
      }
    }
    OpenBlocksAtEnd(blocks, heading, lines);
    if heading.Some? || lines != [] {
      blocks := blocks + [Block(heading, lines)];
    }
  }

  lemma {:induction false} OpenBlocksAtEnd(done: seq<Block>, heading: Option<Claim>, lines: seq<Claim>)
    ensures done + OpenBlocks(heading, lines, []) == CloseBlock(done, heading, lines)
  {
    assert lines + [] == lines;
  }

  // ----- the policy -----

  predicate IsRole(heading: Claim, facts: FactStore) {
    exists id :: id in heading.factIds && IsRoleTitle(facts, id)
  }

  /** How many lines a block keeps however long the document runs. */
  function Floor(block: Block, spec: SectionSpec, headed: bool, facts: FactStore): nat {
    match block.heading
    case None => if headed || spec.optional then 0 else 1
    case Some(heading) =>
      if IsRole(heading, facts) && spec.minClaimsPerRole > 1 then spec.minClaimsPerRole else 1
  }

  /** Pinned lines, and role titles even when they are not styled as headings. */
  predicate NeverDropped(claim: Claim, spec: SectionSpec, facts: FactStore) {
    exists id :: id in claim.factIds && (id in spec.pinnedFactIds || IsRoleTitle(facts, id))
  }

  predicate LinksAny(claim: Claim, factIds: set<string>) {
    exists id :: id in claim.factIds && id in factIds
  }

  predicate Removable(claim: Claim, spec: SectionSpec, facts: FactStore, spare: set<string>) {
    !NeverDropped(claim, spec, facts) && !LinksAny(claim, spare)
  }

  function LastRemovable(lines: seq<Claim>, spec: SectionSpec, facts: FactStore, spare: set<string>): Option<Claim> {
    if lines == [] then None
    else
      var final := lines[|lines| - 1];
      if Removable(final, spec, facts, spare) then Some(final)
      else LastRemovable(lines[..|lines| - 1], spec, facts, spare)
  }

  lemma {:induction false} LastRemovableIsLast(
      lines: seq<Claim>, spec: SectionSpec, facts: FactStore, spare: set<string>)
    ensures LastRemovable(lines, spec, facts, spare).None? <==>
      forall c :: c in lines ==> !Removable(c, spec, facts, spare)
    ensures LastRemovable(lines, spec, facts, spare).Some? ==> exists k ::
      && 0 <= k < |lines| && lines[k] == LastRemovable(lines, spec, facts, spare).value
      && Removable(lines[k], spec, facts, spare)
      && forall j :: k < j < |lines| ==> !Removable(lines[j], spec, facts, spare)
  {
    if lines != [] {
      LastRemovableIsLast(lines[..|lines| - 1], spec, facts, spare);
      assert lines == lines[..|lines| - 1] + [lines[|lines| - 1]];
    }
  }

  /** A block that may lose a line: how far it stands above its floor, and which line. */
  datatype Candidate = Candidate(surplus: int, line: Claim)

  function Surplus(block: Block, spec: SectionSpec, headed: bool, facts: FactStore): int {
    |block.lines| - Floor(block, spec, headed, facts)
  }

  function BlockCandidate(block: Block, spec: SectionSpec, headed: bool, facts: FactStore, spare: set<string>)
    : Option<Candidate>
  {
    var last := LastRemovable(block.lines, spec, facts, spare);
    if Surplus(block, spec, headed, facts) <= 0 || last.None? then None
    else Some(Candidate(Surplus(block, spec, headed, facts), last.value))
  }

  predicate Headed(blocks: seq<Block>) {
    exists b :: b in blocks && b.heading.Some?
  }

  // ----- the promise, in the Profile's own terms -----

  /** The heading is a role's: it links a historical title. */
  predicate OfRole(heading: Claim, facts: FactStore) {
    exists id :: id in heading.factIds && id in facts && "historical-title" in facts[id].tags
  }

  predicate HasHeading(claims: seq<Claim>) {
    exists c :: c in claims && c.style.Heading?
  }

  /** A pinned line, or one that links a historical title. */
  predicate Untouchable(line: Claim, spec: SectionSpec, facts: FactStore) {
    exists id :: id in line.factIds &&
      (id in spec.pinnedFactIds || (id in facts && "historical-title" in facts[id].tags))
  }

  predicate IsDemanded(line: Claim, demanded: set<string>) {
    exists id :: id in line.factIds && id in demanded
  }

  function Max(a: nat, b: nat): nat { if a < b then b else a }

  function Min(a: nat, b: nat): nat { if a < b then a else b }

  /** At any point of a run: a role keeps its minimum, any heading one line, and so do the
      lines of a section that has no heading and is not optional. */
  predicate KeepsPromise(b: Block, claims: seq<Claim>, spec: SectionSpec, facts: FactStore, kept: nat) {
    match b.heading
    case Some(heading) =>
      && kept >= Min(|b.lines|, 1)
      && (OfRole(heading, facts) ==> kept >= Min(|b.lines|, spec.minClaimsPerRole))
    case None => !HasHeading(claims) && !spec.optional ==> kept >= Min(|b.lines|, 1)
  }

  /** At the end of a run: no more than the promise and the untouchable lines take. */
  predicate EndsAt(b: Block, claims: seq<Claim>, spec: SectionSpec, facts: FactStore, kept: nat) {
    var n, untouchable := |b.lines|, UntouchableCount(b.lines, spec, facts);
    match b.heading
    case Some(heading) =>
      if OfRole(heading, facts) then kept == Min(n, Max(Max(1, spec.minClaimsPerRole), untouchable))
      else kept == Min(n, Max(1, untouchable))
    case None =>
      if HasHeading(claims) || spec.optional then kept == untouchable else kept == Min(n, Max(1, untouchable))
  }

  function UntouchableCount(lines: seq<Claim>, spec: SectionSpec, facts: FactStore): (count: nat)
    ensures count <= |lines|
  {
    if lines == [] then 0
    else (if Untouchable(lines[0], spec, facts) then 1 else 0) + UntouchableCount(lines[1..], spec, facts)
  }

  /** The block stands above its promise and holds a line that may go. */
  predicate MayLose(b: Block, claims: seq<Claim>, spec: SectionSpec, facts: FactStore, spare: set<string>) {
    && (exists line :: line in b.lines && !Untouchable(line, spec, facts) && !IsDemanded(line, spare))
    && match b.heading
       case Some(heading) => |b.lines| > 1 && (OfRole(heading, facts) ==> |b.lines| > spec.minClaimsPerRole)
       case None => HasHeading(claims) || spec.optional || |b.lines| > 1
  }

  lemma {:induction false} FromHeadingFinds(claims: seq<Claim>)
    ensures FromHeading(claims) != [] <==> HasHeading(claims)
  {
    if claims != [] && !claims[0].style.Heading? {
      FromHeadingFinds(claims[1..]);
      assert claims == [claims[0]] + claims[1..];
    }
  }

  lemma {:induction false} HeadedExactly(claims: seq<Claim>)
    ensures Headed(Blocks(claims)) <==> HasHeading(claims)
  {
    FromHeadingFinds(claims);
    var rest := FromHeading(claims);
    if rest != [] {
      assert Block(Some(rest[0]), Lead(rest[1..])) in HeadedBlocks(rest);
    }
  }

  lemma {:induction false} LinesGo(line: Claim, spec: SectionSpec, facts: FactStore, spare: set<string>)
    ensures NeverDropped(line, spec, facts) <==> Untouchable(line, spec, facts)
    ensures LinksAny(line, spare) <==> IsDemanded(line, spare)
    ensures Removable(line, spec, facts, spare) <==> !Untouchable(line, spec, facts) && !IsDemanded(line, spare)
  {
  }

  /** A block is on offer exactly when it stands above its promise and a line of it may go. */
  lemma {:induction false} OfferedExactly(
      b: Block, claims: seq<Claim>, spec: SectionSpec, facts: FactStore, spare: set<string>)
    requires b in Blocks(claims)
    ensures BlockCandidate(b, spec, Headed(Blocks(claims)), facts, spare).Some? <==>
      MayLose(b, claims, spec, facts, spare)
  {
    HeadedExactly(claims);
    LastRemovableIsLast(b.lines, spec, facts, spare);
    forall line | line in b.lines
      ensures Removable(line, spec, facts, spare) <==> !Untouchable(line, spec, facts) && !IsDemanded(line, spare)
    {
      LinesGo(line, spec, facts, spare);
    }
  }

  /** What decides every trim besides the draft's sections. */
  datatype Policy = Policy(specs: seq<SectionSpec>, language: Language, facts: FactStore)

  function SpecOf(policy: Policy, section: Section): Option<SectionSpec> {
    SpecNamed(policy.specs, policy.language, section.name)
  }

  /** A section's spec is the last of the Profile with its name in the document's language. */
  lemma {:induction false} SpecOfExactly(policy: Policy, section: Section)
    ensures SpecOf(policy, section).None? <==>
      forall spec :: spec in policy.specs ==> !HasName(spec, policy.language, section.name)
    ensures SpecOf(policy, section).Some? ==> exists k ::
      && 0 <= k < |policy.specs| && policy.specs[k] == SpecOf(policy, section).value
      && HasName(policy.specs[k], policy.language, section.name)
      && forall j :: k < j < |policy.specs| ==> !HasName(policy.specs[j], policy.language, section.name)
  {
    SpecNamedExactly(policy.specs, policy.language, section.name);
  }

  function BlockCandidates(
      blocks: seq<Block>, spec: SectionSpec, headed: bool, facts: FactStore, spare: set<string>): seq<Candidate>
  {
    if blocks == [] then []
    else
      var last := BlockCandidate(blocks[|blocks| - 1], spec, headed, facts, spare);
      var earlier := BlockCandidates(blocks[..|blocks| - 1], spec, headed, facts, spare);
      if last.Some? then earlier + [last.value] else earlier
  }

  function SectionCandidates(section: Section, policy: Policy, spare: set<string>): seq<Candidate> {
    match SpecOf(policy, section)
    case None => []
    case Some(spec) =>
      var blocks := Blocks(section.claims);
      BlockCandidates(blocks, spec, Headed(blocks), policy.facts, spare)
  }

  /** Every block that may lose a line, in document order. */
  function Candidates(sections: seq<Section>, policy: Policy, spare: set<string>): seq<Candidate> {
    if sections == [] then []
    else
      Candidates(sections[..|sections| - 1], policy, spare)
      + SectionCandidates(sections[|sections| - 1], policy, spare)
  }

  /** The candidate furthest above its floor; on a tie, the one later in the document. */
  function Pick(candidates: seq<Candidate>): Option<Candidate> {
    if candidates == [] then None
    else
      var earlier := Pick(candidates[..|candidates| - 1]);
      var last := candidates[|candidates| - 1];
      if earlier.None? || last.surplus >= earlier.value.surplus then Some(last) else earlier
  }

  lemma {:induction false} PickIsFurthest(candidates: seq<Candidate>)
    ensures Pick(candidates).None? <==> candidates == []
    ensures Pick(candidates).Some? ==> exists k ::
      && 0 <= k < |candidates| && candidates[k] == Pick(candidates).value
      && (forall j :: 0 <= j < |candidates| ==> candidates[j].surplus <= candidates[k].surplus)
      && (forall j :: k < j < |candidates| ==> candidates[j].surplus < candidates[k].surplus)
  {
    if candidates != [] {
      PickIsFurthest(candidates[..|candidates| - 1]);
    }
  }

  /** One phase: lines linked to a fact in `spare` are held back. */
  function PhasePick(sections: seq<Section>, policy: Policy, spare: set<string>): Option<Candidate> {
    Pick(Candidates(sections, policy, spare))
  }

  /** Demanded lines go only once no other line may. */
  function NextCandidate(sections: seq<Section>, policy: Policy, demanded: set<string>): Option<Candidate> {
    var spared := PhasePick(sections, policy, demanded);
    if spared.Some? then spared else PhasePick(sections, policy, {})
  }

  // ----- what is on offer -----

  lemma {:induction false} BlockCandidatesMembers(
      blocks: seq<Block>, spec: SectionSpec, headed: bool, facts: FactStore, spare: set<string>, c: Candidate)
    ensures c in BlockCandidates(blocks, spec, headed, facts, spare) <==>
      exists b :: b in blocks && BlockCandidate(b, spec, headed, facts, spare) == Some(c)
  {
    if blocks != [] {
      BlockCandidatesMembers(blocks[..|blocks| - 1], spec, headed, facts, spare, c);
      assert blocks == blocks[..|blocks| - 1] + [blocks[|blocks| - 1]];
    }
  }

  lemma {:induction false} CandidatesMembers(sections: seq<Section>, policy: Policy, spare: set<string>, c: Candidate)
    ensures c in Candidates(sections, policy, spare) <==>
      exists s :: s in sections && c in SectionCandidates(s, policy, spare)
  {
    if sections != [] {
      CandidatesMembers(sections[..|sections| - 1], policy, spare, c);
      assert sections == sections[..|sections| - 1] + [sections[|sections| - 1]];
    }
  }

  /** Some block of a section the Profile names may lose a line. */
  predicate SomeMayLose(sections: seq<Section>, policy: Policy, spare: set<string>) {
    exists s, b :: s in sections && SpecOf(policy, s).Some? && b in Blocks(s.claims)
      && MayLose(b, s.claims, SpecOf(policy, s).value, policy.facts, spare)
  }

  /** The line sits in such a block, and may itself go. */
  predicate IsLost(line: Claim, sections: seq<Section>, policy: Policy, spare: set<string>) {
    exists s, b :: s in sections && SpecOf(policy, s).Some? && b in Blocks(s.claims) && line in b.lines
      && MayLose(b, s.claims, SpecOf(policy, s).value, policy.facts, spare)
      && !Untouchable(line, SpecOf(policy, s).value, policy.facts) && !IsDemanded(line, spare)
  }

  lemma {:induction false} SectionOffers(s: Section, policy: Policy, spare: set<string>, c: Candidate)
    requires SpecOf(policy, s).Some?
    ensures c in SectionCandidates(s, policy, spare) ==> IsLost(c.line, [s], policy, spare)
  {
    var spec, blocks := SpecOf(policy, s).value, Blocks(s.claims);
    BlockCandidatesMembers(blocks, spec, Headed(blocks), policy.facts, spare, c);
    if b :| b in blocks && BlockCandidate(b, spec, Headed(blocks), policy.facts, spare) == Some(c) {
      OfferedExactly(b, s.claims, spec, policy.facts, spare);
      LastRemovableIsLast(b.lines, spec, policy.facts, spare);
      LinesGo(c.line, spec, policy.facts, spare);
      assert s in [s];
    }
  }

  lemma {:induction false} BlockOffers(sections: seq<Section>, s: Section, b: Block, policy: Policy, spare: set<string>)
    requires s in sections && SpecOf(policy, s).Some? && b in Blocks(s.claims)
    requires MayLose(b, s.claims, SpecOf(policy, s).value, policy.facts, spare)
    ensures Candidates(sections, policy, spare) != []
  {
    var spec, blocks := SpecOf(policy, s).value, Blocks(s.claims);
    OfferedExactly(b, s.claims, spec, policy.facts, spare);
    var c := BlockCandidate(b, spec, Headed(blocks), policy.facts, spare).value;
    BlockCandidatesMembers(blocks, spec, Headed(blocks), policy.facts, spare, c);
    CandidatesMembers(sections, policy, spare, c);
  }

  /** A phase picks a line exactly when some block may lose one, and then such a line. */
  lemma {:induction false} PhasePickExactly(sections: seq<Section>, policy: Policy, spare: set<string>)
    ensures PhasePick(sections, policy, spare).Some? <==> SomeMayLose(sections, policy, spare)
    ensures PhasePick(sections, policy, spare).Some? ==>
      IsLost(PhasePick(sections, policy, spare).value.line, sections, policy, spare)
  {
    PickIsFurthest(Candidates(sections, policy, spare));
    if PhasePick(sections, policy, spare).Some? {
      var c := PhasePick(sections, policy, spare).value;
      CandidatesMembers(sections, policy, spare, c);
      var s :| s in sections && c in SectionCandidates(s, policy, spare);
      SectionOffers(s, policy, spare, c);
    }
    if s, b :| s in sections && SpecOf(policy, s).Some? && b in Blocks(s.claims)
               && MayLose(b, s.claims, SpecOf(policy, s).value, policy.facts, spare) {
      BlockOffers(sections, s, b, policy, spare);
    }
  }

  // ----- the source's search -----

  /** A place in the document: section index, then block index. */
  datatype Place = Place(section: nat, block: nat)

  predicate Later(a: Place, b: Place) {
    a.section > b.section || (a.section == b.section && a.block > b.block)
  }

  /** The best candidate so far and where it stands, as the source compares them. */
  datatype Best = Best(candidate: Candidate, place: Place)

  function Improve(best: Option<Best>, candidate: Candidate, place: Place): Option<Best> {
    match best
    case None => Some(Best(candidate, place))
    case Some(b) =>
      if candidate.surplus > b.candidate.surplus
         || (candidate.surplus == b.candidate.surplus && Later(place, b.place))
      then Some(Best(candidate, place)) else best
  }

  predicate Tracks(best: Option<Best>, candidates: seq<Candidate>) {
    match Pick(candidates)
    case None => best.None?
    case Some(c) => best.Some? && best.value.candidate == c
  }

  lemma {:induction false} ImproveTracks(
      best: Option<Best>, candidates: seq<Candidate>, candidate: Candidate, place: Place)
    requires Tracks(best, candidates) && (best.Some? ==> Later(place, best.value.place))
    ensures Tracks(Improve(best, candidate, place), candidates + [candidate])
  {
    assert (candidates + [candidate])[..|candidates|] == candidates;
  }

  method SearchBlocks(
      claims: seq<Claim>, spec: SectionSpec, facts: FactStore, spare: set<string>, sectionIndex: nat,
      start: Option<Best>, ghost seen: seq<Candidate>)
    returns (best: Option<Best>)
    requires Tracks(start, seen) && (start.Some? ==> start.value.place.section < sectionIndex)
    ensures Tracks(best, seen + BlockCandidates(Blocks(claims), spec, Headed(Blocks(claims)), facts, spare))
    ensures best.Some? ==> best.value.place.section <= sectionIndex
  {
    var blocks := BlocksOf(claims);
    var headed := Headed(blocks);
    best := start;
    assert seen + [] == seen;
    for k := 0 to |blocks|
      invariant Tracks(best, seen + BlockCandidates(blocks[..k], spec, headed, facts, spare))
      invariant best.Some? ==> Later(Place(sectionIndex, k), best.value.place)
    {
      BlockSearched(best, seen, blocks, k, spec, headed, facts, spare, Place(sectionIndex, k));
      best := ConsiderBlock(best, blocks[k], spec, headed, facts, spare, Place(sectionIndex, k));
    }
    assert blocks[..|blocks|] == blocks;
  }

  /** One block of the search: nothing above its floor, or nothing in it that may go. */
  method ConsiderBlock(
      best: Option<Best>, block: Block, spec: SectionSpec, headed: bool, facts: FactStore, spare: set<string>,
      place: Place)
    returns (better: Option<Best>)
    ensures better ==
      match BlockCandidate(block, spec, headed, facts, spare)
      case None => best
      case Some(c) => Improve(best, c, place)
    ensures better == best || (better.Some? && better.value.place == place)
  {
    var surplus := Surplus(block, spec, headed, facts);
    var removable := LastRemovable(block.lines, spec, facts, spare);
    if surplus <= 0 || removable.None? {
      return best;
    }
    better := Improve(best, Candidate(surplus, removable.value), place);
  }

  lemma {:induction false} BlockSearched(
      best: Option<Best>, seen: seq<Candidate>, blocks: seq<Block>, k: nat, spec: SectionSpec, headed: bool,
      facts: FactStore, spare: set<string>, place: Place)
    requires k < |blocks|
    requires Tracks(best, seen + BlockCandidates(blocks[..k], spec, headed, facts, spare))
    requires best.Some? ==> Later(place, best.value.place)
    ensures Tracks(
      match BlockCandidate(blocks[k], spec, headed, facts, spare)
      case None => best
      case Some(c) => Improve(best, c, place),
      seen + BlockCandidates(blocks[..k + 1], spec, headed, facts, spare))
  {
    assert blocks[..k + 1][..k] == blocks[..k];
    var found := seen + BlockCandidates(blocks[..k], spec, headed, facts, spare);
    match BlockCandidate(blocks[k], spec, headed, facts, spare)
    case None =>
    case Some(c) =>
      ImproveTracks(best, found, c, place);
      assert found + [c] == seen + BlockCandidates(blocks[..k + 1], spec, headed, facts, spare);
  }

  /** `_next_trim`: the claim to drop with every line linked to a fact in `spare` held back. */
  method NextTrimSparing(sections: seq<Section>, policy: Policy, spare: set<string>) returns (claimId: Option<string>)
    ensures claimId.None? <==> PhasePick(sections, policy, spare).None?
    ensures claimId.Some? ==> claimId.value == PhasePick(sections, policy, spare).value.line.claimId
  {
    var best: Option<Best> := None;
    for i := 0 to |sections|
      invariant Tracks(best, Candidates(sections[..i], policy, spare))
      invariant best.Some? ==> best.value.place.section < i
    {
      assert sections[..i + 1][..i] == sections[..i];
      ghost var seen := Candidates(sections[..i], policy, spare);
      assert seen + [] == seen;
      var spec := SpecOf(policy, sections[i]);
      if spec.Some? {
        best := SearchBlocks(sections[i].claims, spec.value, policy.facts, spare, i, best, seen);
      }
    }
    assert sections[..|sections|] == sections;
    claimId := if best.None? then None else Some(best.value.candidate.line.claimId);
  }

  /** The claim to drop next to shorten the draft, or None when nothing may go. */
  method NextTrim(sections: seq<Section>, policy: Policy, demanded: set<string>) returns (claimId: Option<string>)
    ensures claimId.None? <==> NextCandidate(sections, policy, demanded).None?
    ensures claimId.Some? ==> claimId.value == NextCandidate(sections, policy, demanded).value.line.claimId
    ensures claimId.None? <==> !SomeMayLose(sections, policy, demanded) && !SomeMayLose(sections, policy, {})
    ensures claimId.Some? ==> exists line: Claim ::
      && line.claimId == claimId.value
      && IsLost(line, sections, policy, if SomeMayLose(sections, policy, demanded) then demanded else {})
  {
    PhasePickExactly(sections, policy, demanded);
    PhasePickExactly(sections, policy, {});
    claimId := NextTrimSparing(sections, policy, demanded);
    if claimId.None? {
      claimId := NextTrimSparing(sections, policy, {});
    }
  }
}
