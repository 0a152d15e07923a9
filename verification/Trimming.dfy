/** What a whole trimming run leaves (domain/page_fit.py next_trim with drop_claims, repeated
    as services/drafts/authoring.py does). A run is described by the set of IDs dropped so
    far; every statement is about the blocks of the draft the run started from. */
module Trimming {
  import opened Wrappers
  import opened Contracts
  import opened Narrowing
  import opened PageFit

  // ----- what a run keeps -----

  /** How much the policy wants a line: protected first, then demanded, then the rest. */
  function Rank(line: Claim, spec: SectionSpec, facts: FactStore, demanded: set<string>): nat {
    if Untouchable(line, spec, facts) then 0 else if IsDemanded(line, demanded) then 1 else 2
  }

  function Kept(lines: seq<Claim>, dropped: set<string>): seq<Claim> {
    Without(lines, dropped)
  }

  /** Every line kept is one the policy prefers to every line dropped. */
  predicate KeepsPreferred(
      lines: seq<Claim>, dropped: set<string>, spec: SectionSpec, facts: FactStore, demanded: set<string>)
  {
    forall i, j ::
      0 <= i < |lines| && 0 <= j < |lines| && lines[i].claimId !in dropped && lines[j].claimId in dropped ==>
      Rank(lines[i], spec, facts, demanded) < Rank(lines[j], spec, facts, demanded)
      || (Rank(lines[i], spec, facts, demanded) == Rank(lines[j], spec, facts, demanded) && i < j)
  }

  /** One block, at any point of a run: no protected line went, what went is what the policy
      wants least, and no line went that the floor needed. */
  predicate BlockHolds(
      block: Block, dropped: set<string>, spec: SectionSpec, headed: bool, facts: FactStore, demanded: set<string>)
  {
    && (forall line :: line in block.lines && line.claimId in dropped ==> !Untouchable(line, spec, facts))
    && KeepsPreferred(block.lines, dropped, spec, facts, demanded)
    && (|Kept(block.lines, dropped)| < |block.lines| ==>
          |Kept(block.lines, dropped)| >= Floor(block, spec, headed, facts))
  }

  /** A section the Profile does not name loses nothing. */
  predicate UnnamedUntouched(sections: seq<Section>, dropped: set<string>, policy: Policy) {
    forall s, c :: s in sections && SpecOf(policy, s).None? && c in s.claims ==> c.claimId !in dropped
  }

  predicate RunHolds(sections: seq<Section>, dropped: set<string>, policy: Policy, demanded: set<string>) {
    && UnnamedUntouched(sections, dropped, policy)
    && forall s, b :: s in sections && SpecOf(policy, s).Some? && b in Blocks(s.claims) ==>
         BlockHolds(b, dropped, SpecOf(policy, s).value, Headed(Blocks(s.claims)), policy.facts, demanded)
  }

  /** How many lines of a block a finished run leaves. */
  function FinalSize(block: Block, spec: SectionSpec, headed: bool, facts: FactStore): nat {
    Min(|block.lines|, Max(Floor(block, spec, headed, facts), UntouchableCount(block.lines, spec, facts)))
  }

  /** A finished run: each block keeps exactly that many lines, the ones the policy prefers. */
  predicate FullyTrimmed(sections: seq<Section>, dropped: set<string>, policy: Policy, demanded: set<string>) {
    && RunHolds(sections, dropped, policy, demanded)
    && forall s, b :: s in sections && SpecOf(policy, s).Some? && b in Blocks(s.claims) ==>
         EndsAt(b, s.claims, SpecOf(policy, s).value, policy.facts, |Kept(b.lines, dropped)|)
  }

  /** At any point of a run every block of a named section keeps what the Profile promises. */
  predicate PromiseHolds(sections: seq<Section>, dropped: set<string>, policy: Policy) {
    forall s, b :: s in sections && SpecOf(policy, s).Some? && b in Blocks(s.claims) ==>
      KeepsPromise(b, s.claims, SpecOf(policy, s).value, policy.facts, |Kept(b.lines, dropped)|)
  }

  // ----- blocks of a narrowed section -----

  function NarrowBlock(block: Block, dropped: set<string>): Block {
    Block(block.heading, Without(block.lines, dropped))
  }

  function NarrowBlocks(blocks: seq<Block>, dropped: set<string>): seq<Block> {
    if blocks == [] then [] else [NarrowBlock(blocks[0], dropped)] + NarrowBlocks(blocks[1..], dropped)
  }

  lemma {:induction false} LeadNarrows(claims: seq<Claim>, dropped: set<string>)
    ensures Lead(Without(claims, dropped)) == Without(Lead(claims), dropped)
    ensures FromHeading(Without(claims, dropped)) == Without(FromHeading(claims), dropped)
  {
    if claims != [] && !claims[0].style.Heading? {
      LeadNarrows(claims[1..], dropped);
      assert ([claims[0]] + Lead(claims[1..]))[1..] == Lead(claims[1..]);
      var rest := Without(claims[1..], dropped);
      assert ([claims[0]] + rest)[1..] == rest;
    }
  }

  lemma {:induction false} HeadedNarrows(claims: seq<Claim>, dropped: set<string>)
    requires claims != [] ==> claims[0].style.Heading?
    ensures var left := Without(claims, dropped);
      && (left != [] ==> left[0].style.Heading?)
      && HeadedBlocks(left) == NarrowBlocks(HeadedBlocks(claims), dropped)
    decreases |claims|
  {
    if claims != [] {
      LeadNarrows(claims[1..], dropped);
      HeadedNarrows(FromHeading(claims[1..]), dropped);
      var rest := Without(claims[1..], dropped);
      assert ([claims[0]] + rest)[1..] == rest;
      var later := HeadedBlocks(FromHeading(claims[1..]));
      var first := Block(Some(claims[0]), Lead(claims[1..]));
      assert ([first] + later)[1..] == later;
    }
  }

  lemma {:induction false} NarrowBlocksMembers(blocks: seq<Block>, dropped: set<string>, block: Block)
    ensures block in NarrowBlocks(blocks, dropped) <==> exists b :: b in blocks && block == NarrowBlock(b, dropped)
  {
    if blocks != [] {
      NarrowBlocksMembers(blocks[1..], dropped, block);
      assert blocks == [blocks[0]] + blocks[1..];
    }
  }

  lemma {:induction false} HeadedBlocksHaveHeadings(claims: seq<Claim>)
    requires claims != [] ==> claims[0].style.Heading?
    ensures forall b :: b in HeadedBlocks(claims) ==> b.heading.Some?
    decreases |claims|
  {
    if claims != [] {
      HeadedBlocksHaveHeadings(FromHeading(claims[1..]));
    }
  }

  /** The narrowed section's blocks are the narrowed blocks; only a block with neither
      heading nor line disappears. */
  lemma {:induction false} BlocksNarrow(claims: seq<Claim>, dropped: set<string>, block: Block)
    ensures block in Blocks(Without(claims, dropped)) <==>
      (block.heading.Some? || block.lines != [])
      && exists b :: b in Blocks(claims) && block == NarrowBlock(b, dropped)
  {
    LeadNarrows(claims, dropped);
    HeadedNarrows(FromHeading(claims), dropped);
    HeadedBlocksHaveHeadings(FromHeading(claims));
    var lead, later := LeadBlocks(Lead(claims)), HeadedBlocks(FromHeading(claims));
    NarrowBlocksMembers(later, dropped, block);
    assert forall b :: b in Blocks(claims) <==> b in lead || b in later;
    if block in LeadBlocks(Without(Lead(claims), dropped)) {
      assert Block(None, Lead(claims)) in lead;
    }
  }

  lemma {:induction false} HeadedUnchanged(claims: seq<Claim>, dropped: set<string>)
    ensures Headed(Blocks(Without(claims, dropped))) == Headed(Blocks(claims))
  {
    if Headed(Blocks(claims)) {
      var b :| b in Blocks(claims) && b.heading.Some?;
      BlocksNarrow(claims, dropped, NarrowBlock(b, dropped));
    }
    if Headed(Blocks(Without(claims, dropped))) {
      var b :| b in Blocks(Without(claims, dropped)) && b.heading.Some?;
      BlocksNarrow(claims, dropped, b);
    }
  }

  // ----- every line sits in one block -----

  lemma {:induction false} LeadLines(claims: seq<Claim>)
    ensures forall c :: c in Lead(claims) ==> c in claims && !Structural(c.style)
    ensures forall c :: c in FromHeading(claims) ==> c in claims
    ensures DistinctIds(claims) ==> DistinctIds(Lead(claims)) && DistinctIds(FromHeading(claims))
    ensures DistinctIds(claims) ==> Ids(Lead(claims)) !! Ids(FromHeading(claims))
  {
    if claims != [] && !claims[0].style.Heading? {
      LeadLines(claims[1..]);
      if DistinctIds(claims) {
        forall c | c in claims[1..] ensures c.claimId != claims[0].claimId {
          var k :| 1 <= k < |claims| && claims[k] == c;
        }
      }
    }
  }

  lemma {:induction false} HeadedLines(claims: seq<Claim>, block: Block)
    requires claims != [] ==> claims[0].style.Heading?
    requires block in HeadedBlocks(claims)
    ensures forall c :: c in block.lines ==> c in claims && !Structural(c.style)
    ensures DistinctIds(claims) ==> DistinctIds(block.lines)
    decreases |claims|
  {
    LeadLines(claims[1..]);
    if block in HeadedBlocks(FromHeading(claims[1..])) {
      HeadedLines(FromHeading(claims[1..]), block);
    }
  }

  lemma {:induction false} BlockLines(claims: seq<Claim>, block: Block)
    requires block in Blocks(claims)
    ensures forall c :: c in block.lines ==> c in claims && !Structural(c.style)
    ensures DistinctIds(claims) ==> DistinctIds(block.lines)
  {
    LeadLines(claims);
    if block in HeadedBlocks(FromHeading(claims)) {
      HeadedLines(FromHeading(claims), block);
    }
  }

  lemma {:induction false} OneHeadedBlock(claims: seq<Claim>, a: Block, b: Block, id: string)
    requires DistinctIds(claims)
    requires claims != [] ==> claims[0].style.Heading?
    requires a in HeadedBlocks(claims) && b in HeadedBlocks(claims)
    requires id in Ids(a.lines) && id in Ids(b.lines)
    ensures a == b
    decreases |claims|
  {
    var later := HeadedBlocks(FromHeading(claims[1..]));
    LeadLines(claims[1..]);
    if a in later && b in later {
      OneHeadedBlock(FromHeading(claims[1..]), a, b, id);
    } else {
      if a in later {
        HeadedLines(FromHeading(claims[1..]), a);
      }
      if b in later {
        HeadedLines(FromHeading(claims[1..]), b);
      }
    }
  }

  lemma {:induction false} OneBlock(claims: seq<Claim>, a: Block, b: Block, id: string)
    requires DistinctIds(claims)
    requires a in Blocks(claims) && b in Blocks(claims) && id in Ids(a.lines) && id in Ids(b.lines)
    ensures a == b
  {
    LeadLines(claims);
    var later := HeadedBlocks(FromHeading(claims));
    if a in later {
      HeadedLines(FromHeading(claims), a);
    }
    if b in later {
      HeadedLines(FromHeading(claims), b);
    }
    if a in later && b in later {
      OneHeadedBlock(FromHeading(claims), a, b, id);
    }
  }

  lemma {:induction false} OneSection(sections: seq<Section>, s: Section, t: Section, id: string)
    requires UniqueLineIds(sections)
    requires s in sections && t in sections && id in Ids(s.claims) && id in Ids(t.claims)
    ensures s == t && DistinctIds(s.claims)
  {
    var head, rest := sections[0].claims, SectionClaims(sections[1..]);
    assert forall i :: 0 <= i < |head| ==> (head + rest)[i] == head[i];
    assert forall i :: 0 <= i < |rest| ==> (head + rest)[|head| + i] == rest[i];
    forall u | u in sections[1..] ensures Ids(u.claims) <= Ids(rest) {
      var k :| 0 <= k < |sections[1..]| && sections[1..][k] == u;
      forall c | c in u.claims ensures c in rest {
        ClaimInSection(sections[1..], k, c);
      }
    }
    assert Ids(head) !! Ids(rest);
    if s != sections[0] || t != sections[0] {
      OneSection(sections[1..], s, t, id);
    }
  }

  // ----- what is still on offer -----

  /** Block `b` of section `s` of the original document, as it stands after the drops. */
  function Live(s: Section, b: Block, dropped: set<string>, policy: Policy, spare: set<string>): Option<Candidate>
    requires SpecOf(policy, s).Some?
  {
    BlockCandidate(NarrowBlock(b, dropped), SpecOf(policy, s).value, Headed(Blocks(s.claims)), policy.facts, spare)
  }

  ghost predicate Offers(
      sections: seq<Section>, dropped: set<string>, policy: Policy, spare: set<string>, c: Candidate)
  {
    exists s, b :: s in sections && SpecOf(policy, s).Some? && b in Blocks(s.claims)
      && Live(s, b, dropped, policy, spare) == Some(c)
  }

  lemma {:induction false} NarrowedSectionOffers(
      s: Section, dropped: set<string>, policy: Policy, spare: set<string>, c: Candidate)
    ensures c in SectionCandidates(Narrowed(s, dropped), policy, spare) <==>
      SpecOf(policy, s).Some? && exists b :: b in Blocks(s.claims) && Live(s, b, dropped, policy, spare) == Some(c)
  {
    if SpecOf(policy, s).Some? {
      var spec, left := SpecOf(policy, s).value, Blocks(Without(s.claims, dropped));
      HeadedUnchanged(s.claims, dropped);
      BlockCandidatesMembers(left, spec, Headed(left), policy.facts, spare, c);
      if b :| b in Blocks(s.claims) && Live(s, b, dropped, policy, spare) == Some(c) {
        BlocksNarrow(s.claims, dropped, NarrowBlock(b, dropped));
        assert NarrowBlock(b, dropped) in left;
      }
      if b :| b in left && BlockCandidate(b, spec, Headed(left), policy.facts, spare) == Some(c) {
        BlocksNarrow(s.claims, dropped, b);
        var o :| o in Blocks(s.claims) && b == NarrowBlock(o, dropped);
        assert Live(s, o, dropped, policy, spare) == Some(c);
      }
    }
  }

  /** The candidates of a narrowed document are what its original blocks still offer. */
  lemma {:induction false} NarrowedOffers(
      sections: seq<Section>, dropped: set<string>, optional: set<string>, policy: Policy, spare: set<string>,
      c: Candidate)
    ensures c in Candidates(WithoutSections(sections, dropped, optional), policy, spare) <==>
      Offers(sections, dropped, policy, spare, c)
  {
    var left := WithoutSections(sections, dropped, optional);
    CandidatesMembers(left, policy, spare, c);
    if c in Candidates(left, policy, spare) {
      var t :| t in left && c in SectionCandidates(t, policy, spare);
      NarrowedSections(sections, dropped, optional, t);
      var s :| s in sections && t == Narrowed(s, dropped);
      NarrowedSectionOffers(s, dropped, policy, spare, c);
    }
    if Offers(sections, dropped, policy, spare, c) {
      var s, b :| s in sections && SpecOf(policy, s).Some? && b in Blocks(s.claims)
        && Live(s, b, dropped, policy, spare) == Some(c);
      NarrowedSectionOffers(s, dropped, policy, spare, c);
      EmptySectionOffersNothing(Narrowed(s, dropped), policy, spare);
      NarrowedSections(sections, dropped, optional, Narrowed(s, dropped));
    }
  }

  lemma {:induction false} EmptySectionOffersNothing(s: Section, policy: Policy, spare: set<string>)
    ensures s.claims == [] ==> SectionCandidates(s, policy, spare) == []
  {
    if s.claims == [] {
      assert Blocks(s.claims) == [];
    }
  }

  lemma {:induction false} WithoutNothing(claims: seq<Claim>)
    ensures Without(claims, {}) == claims
  {
    if claims != [] {
      WithoutNothing(claims[1..]);
    }
  }

  /** The document a run stands at: untouched at first, narrowed by its drops after. */
  predicate StandsAt(sections: seq<Section>, dropped: set<string>, optional: set<string>, current: seq<Section>) {
    current == WithoutSections(sections, dropped, optional) || (dropped == {} && current == sections)
  }

  lemma {:induction false} CurrentOffers(
      sections: seq<Section>, dropped: set<string>, optional: set<string>, current: seq<Section>, policy: Policy,
      spare: set<string>, c: Candidate)
    requires StandsAt(sections, dropped, optional, current)
    ensures c in Candidates(current, policy, spare) <==> Offers(sections, dropped, policy, spare, c)
  {
    if current == WithoutSections(sections, dropped, optional) {
      NarrowedOffers(sections, dropped, optional, policy, spare, c);
    } else {
      CandidatesMembers(sections, policy, spare, c);
      forall s | s in sections
        ensures c in SectionCandidates(s, policy, spare) <==>
          SpecOf(policy, s).Some? && exists b :: b in Blocks(s.claims) && Live(s, b, dropped, policy, spare) == Some(c)
      {
        WithoutNothing(s.claims);
        NarrowedSectionOffers(s, dropped, policy, spare, c);
      }
    }
  }

  // ----- one drop -----

  predicate Evidence(lines: seq<Claim>) {
    forall c :: c in lines ==> !Structural(c.style)
  }

  /** Line `j` is the last one left that may go. */
  predicate LastLeft(
      lines: seq<Claim>, dropped: set<string>, spec: SectionSpec, facts: FactStore, spare: set<string>, j: int)
  {
    && 0 <= j < |lines| && lines[j].claimId !in dropped && Removable(lines[j], spec, facts, spare)
    && forall k :: j < k < |lines| && lines[k].claimId !in dropped ==> !Removable(lines[k], spec, facts, spare)
  }

  predicate NoneLeft(
      lines: seq<Claim>, dropped: set<string>, spec: SectionSpec, facts: FactStore, spare: set<string>)
  {
    forall j :: 0 <= j < |lines| && lines[j].claimId !in dropped ==> !Removable(lines[j], spec, facts, spare)
  }

  lemma {:induction false} LastKept(
      lines: seq<Claim>, dropped: set<string>, spec: SectionSpec, facts: FactStore, spare: set<string>)
    requires Evidence(lines)
    ensures match LastRemovable(Without(lines, dropped), spec, facts, spare)
      case None => NoneLeft(lines, dropped, spec, facts, spare)
      case Some(line) => exists j :: LastLeft(lines, dropped, spec, facts, spare, j) && lines[j] == line
  {
    if lines != [] {
      var front, last := lines[..|lines| - 1], lines[|lines| - 1];
      LastKept(front, dropped, spec, facts, spare);
      WithoutAppends(front, last, dropped);
      assert lines == front + [last] && last in lines;
      var left := Without(front, dropped);
      assert (left + [last])[..|left|] == left && left + [] == left;
      if last.claimId !in dropped && Removable(last, spec, facts, spare) {
        assert LastLeft(lines, dropped, spec, facts, spare, |front|);
      } else if LastRemovable(left, spec, facts, spare).Some? {
        var j :| LastLeft(front, dropped, spec, facts, spare, j)
          && front[j] == LastRemovable(left, spec, facts, spare).value;
        assert lines[j] == front[j] && LastLeft(lines, dropped, spec, facts, spare, j);
      }
    }
  }

  lemma {:induction false} DropNone(lines: seq<Claim>, dropped: set<string>, id: string)
    requires id !in Ids(lines)
    ensures Without(lines, dropped + {id}) == Without(lines, dropped)
  {
    if lines != [] {
      assert lines[0] in lines;
      DropNone(lines[1..], dropped, id);
    }
  }

  lemma {:induction false} DropOne(lines: seq<Claim>, dropped: set<string>, id: string)
    requires DistinctIds(lines) && id in Ids(lines) && id !in dropped
    requires forall c :: c in lines && c.claimId == id ==> !Structural(c.style)
    ensures |Without(lines, dropped + {id})| == |Without(lines, dropped)| - 1
  {
    if lines[0].claimId == id {
      forall c | c in lines[1..] ensures c.claimId != id {
        var k :| 1 <= k < |lines| && lines[k] == c;
      }
      DropNone(lines[1..], dropped, id);
    } else {
      DropOne(lines[1..], dropped, id);
    }
  }

  lemma {:induction false} ProtectedStay(
      lines: seq<Claim>, dropped: set<string>, spec: SectionSpec, facts: FactStore)
    requires Evidence(lines)
    requires forall c :: c in lines && c.claimId in dropped ==> !Untouchable(c, spec, facts)
    ensures |Kept(lines, dropped)| <= |lines|
    ensures |Kept(lines, dropped)| >= UntouchableCount(lines, spec, facts)
    ensures (forall c :: c in lines && c.claimId !in dropped ==> Untouchable(c, spec, facts)) ==>
      |Kept(lines, dropped)| == UntouchableCount(lines, spec, facts)
  {
    if lines != [] {
      ProtectedStay(lines[1..], dropped, spec, facts);
      assert lines == [lines[0]] + lines[1..];
    }
  }

  /** The line that goes is the one the policy wants least of those left: in the first
      phase no demanded line may go, in the second no other line is left to go. */
  lemma {:induction false} DropKeepsPreferred(
      lines: seq<Claim>, dropped: set<string>, spec: SectionSpec, facts: FactStore, demanded: set<string>,
      spare: set<string>, at: nat)
    requires DistinctIds(lines) && KeepsPreferred(lines, dropped, spec, facts, demanded)
    requires LastLeft(lines, dropped, spec, facts, spare, at)
    requires spare == demanded || (spare == {} && NoneLeft(lines, dropped, spec, facts, demanded))
    ensures KeepsPreferred(lines, dropped + {lines[at].claimId}, spec, facts, demanded)
  {
    var after := dropped + {lines[at].claimId};
    forall i, j | 0 <= i < |lines| && 0 <= j < |lines| && lines[i].claimId !in after && lines[j].claimId in after
      ensures Rank(lines[i], spec, facts, demanded) < Rank(lines[j], spec, facts, demanded)
        || (Rank(lines[i], spec, facts, demanded) == Rank(lines[j], spec, facts, demanded) && i < j)
    {
      if lines[j].claimId !in dropped {
        assert j == at;
        assert i < at || !Removable(lines[i], spec, facts, spare);
      }
    }
  }

  /** The block a candidate is taken from keeps holding. */
  lemma {:induction false} DroppedBlockHolds(
      block: Block, dropped: set<string>, spec: SectionSpec, headed: bool, facts: FactStore, demanded: set<string>,
      spare: set<string>, c: Candidate)
    requires Evidence(block.lines) && DistinctIds(block.lines)
    requires BlockHolds(block, dropped, spec, headed, facts, demanded)
    requires BlockCandidate(NarrowBlock(block, dropped), spec, headed, facts, spare) == Some(c)
    requires spare == demanded
      || (spare == {} && BlockCandidate(NarrowBlock(block, dropped), spec, headed, facts, demanded).None?)
    ensures BlockHolds(block, dropped + {c.line.claimId}, spec, headed, facts, demanded)
  {
    var lines := block.lines;
    LastKept(lines, dropped, spec, facts, spare);
    LastKept(lines, dropped, spec, facts, demanded);
    var at :| LastLeft(lines, dropped, spec, facts, spare, at) && lines[at] == c.line;
    DropKeepsPreferred(lines, dropped, spec, facts, demanded, spare, at);
    DropOne(lines, dropped, c.line.claimId);
    OnlyThisLine(lines, at);
  }

  lemma {:induction false} OnlyThisLine(lines: seq<Claim>, at: nat)
    requires DistinctIds(lines) && at < |lines|
    ensures lines[at] in lines && forall line :: line in lines && line.claimId == lines[at].claimId ==>
      line == lines[at]
  {
    forall line | line in lines && line.claimId == lines[at].claimId ensures line == lines[at] {
      var j :| 0 <= j < |lines| && lines[j] == line;
      assert j == at;
    }
  }

  /** What a phase chose when it chose `c`: the furthest above its floor of all on offer. */
  ghost predicate Chosen(
      sections: seq<Section>, dropped: set<string>, policy: Policy, spare: set<string>, c: Candidate)
  {
    && Offers(sections, dropped, policy, spare, c)
    && forall d :: Offers(sections, dropped, policy, spare, d) ==> d.surplus <= c.surplus
  }

  ghost predicate NothingOffered(sections: seq<Section>, dropped: set<string>, policy: Policy, spare: set<string>) {
    forall d :: !Offers(sections, dropped, policy, spare, d)
  }

  lemma {:induction false} NothingLive(
      sections: seq<Section>, dropped: set<string>, policy: Policy, spare: set<string>, s: Section, b: Block)
    requires NothingOffered(sections, dropped, policy, spare)
    requires s in sections && SpecOf(policy, s).Some? && b in Blocks(s.claims)
    ensures Live(s, b, dropped, policy, spare).None?
  {
    match Live(s, b, dropped, policy, spare)
    case None =>
    case Some(c) => assert Offers(sections, dropped, policy, spare, c);
  }

  lemma {:induction false} PhaseChooses(
      sections: seq<Section>, dropped: set<string>, optional: set<string>, current: seq<Section>, policy: Policy,
      spare: set<string>)
    requires StandsAt(sections, dropped, optional, current)
    ensures match PhasePick(current, policy, spare)
      case None => NothingOffered(sections, dropped, policy, spare)
      case Some(c) => Chosen(sections, dropped, policy, spare, c)
  {
    var candidates := Candidates(current, policy, spare);
    PickIsFurthest(candidates);
    forall d ensures d in candidates <==> Offers(sections, dropped, policy, spare, d) {
      CurrentOffers(sections, dropped, optional, current, policy, spare, d);
    }
  }

  /** The line a phase chose: where it sat, and that no other block holds it. */
  lemma {:induction false} ChosenLine(
      sections: seq<Section>, dropped: set<string>, policy: Policy, spare: set<string>, c: Candidate)
    requires UniqueLineIds(sections) && Offers(sections, dropped, policy, spare, c)
    ensures c.line in SectionClaims(sections) && !Structural(c.line.style)
    ensures c.line.claimId !in dropped && !IsDemanded(c.line, spare)
  {
    var s, b :| s in sections && SpecOf(policy, s).Some? && b in Blocks(s.claims)
      && Live(s, b, dropped, policy, spare) == Some(c);
    BlockLines(s.claims, b);
    LastKept(b.lines, dropped, SpecOf(policy, s).value, policy.facts, spare);
    var k :| 0 <= k < |sections| && sections[k] == s;
    ClaimInSection(sections, k, c.line);
  }

  /** Dropping what the policy names keeps every block holding. */
  lemma {:induction false} StepHolds(
      sections: seq<Section>, dropped: set<string>, policy: Policy, demanded: set<string>, spare: set<string>,
      c: Candidate)
    requires UniqueLineIds(sections) && RunHolds(sections, dropped, policy, demanded)
    requires Offers(sections, dropped, policy, spare, c)
    requires spare == demanded || (spare == {} && NothingOffered(sections, dropped, policy, demanded))
    ensures RunHolds(sections, dropped + {c.line.claimId}, policy, demanded)
  {
    var id := c.line.claimId;
    var s0, b0 :| s0 in sections && SpecOf(policy, s0).Some? && b0 in Blocks(s0.claims)
      && Live(s0, b0, dropped, policy, spare) == Some(c);
    BlockLines(s0.claims, b0);
    LastKept(b0.lines, dropped, SpecOf(policy, s0).value, policy.facts, spare);
    OneSection(sections, s0, s0, id);
    forall s, l | s in sections && SpecOf(policy, s).None? && l in s.claims ensures l.claimId != id {
      if l.claimId == id {
        OneSection(sections, s, s0, id);
      }
    }
    forall s, b | s in sections && SpecOf(policy, s).Some? && b in Blocks(s.claims)
      ensures BlockHolds(
        b, dropped + {id}, SpecOf(policy, s).value, Headed(Blocks(s.claims)), policy.facts, demanded)
    {
      BlockLines(s.claims, b);
      var spec, headed := SpecOf(policy, s).value, Headed(Blocks(s.claims));
      if id in Ids(b.lines) {
        OneSection(sections, s, s0, id);
        OneBlock(s.claims, b, b0, id);
        if spare != demanded {
          NothingLive(sections, dropped, policy, demanded, s, b);
        }
        DroppedBlockHolds(b, dropped, spec, headed, policy.facts, demanded, spare, c);
      } else {
        DropNone(b.lines, dropped, id);
        OtherBlockHolds(b, dropped, id, spec, headed, policy.facts, demanded);
      }
    }
  }

  lemma {:induction false} OtherBlockHolds(
      block: Block, dropped: set<string>, id: string, spec: SectionSpec, headed: bool, facts: FactStore,
      demanded: set<string>)
    requires id !in Ids(block.lines) && BlockHolds(block, dropped, spec, headed, facts, demanded)
    ensures BlockHolds(block, dropped + {id}, spec, headed, facts, demanded)
  {
    DropNone(block.lines, dropped, id);
    assert forall j :: 0 <= j < |block.lines| ==>
      (block.lines[j].claimId in dropped + {id} <==> block.lines[j].claimId in dropped);
  }

  lemma {:induction false} StartHolds(sections: seq<Section>, policy: Policy, demanded: set<string>)
    ensures RunHolds(sections, {}, policy, demanded)
  {
    forall s, b | s in sections && SpecOf(policy, s).Some? && b in Blocks(s.claims)
      ensures Without(b.lines, {}) == b.lines
    {
      WithoutNothing(b.lines);
    }
  }

  /** When nothing is on offer, every block is at its closed form. */
  lemma {:induction false} EndIsFullyTrimmed(
      sections: seq<Section>, dropped: set<string>, policy: Policy, demanded: set<string>)
    requires RunHolds(sections, dropped, policy, demanded) && NothingOffered(sections, dropped, policy, {})
    ensures FullyTrimmed(sections, dropped, policy, demanded)
  {
    forall s, b | s in sections && SpecOf(policy, s).Some? && b in Blocks(s.claims)
      ensures EndsAt(b, s.claims, SpecOf(policy, s).value, policy.facts, |Kept(b.lines, dropped)|)
    {
      EndIsFinalSize(sections, dropped, policy, demanded, s, b);
      FinalSizeEnds(b, s.claims, SpecOf(policy, s).value, policy.facts);
    }
  }

  lemma {:induction false} FinalSizeEnds(b: Block, claims: seq<Claim>, spec: SectionSpec, facts: FactStore)
    requires b in Blocks(claims)
    ensures EndsAt(b, claims, spec, facts, FinalSize(b, spec, Headed(Blocks(claims)), facts))
  {
    HeadedExactly(claims);
  }

  lemma {:induction false} EndIsFinalSize(
      sections: seq<Section>, dropped: set<string>, policy: Policy, demanded: set<string>, s: Section, b: Block)
    requires RunHolds(sections, dropped, policy, demanded) && NothingOffered(sections, dropped, policy, {})
    requires s in sections && SpecOf(policy, s).Some? && b in Blocks(s.claims)
    ensures |Kept(b.lines, dropped)| == FinalSize(b, SpecOf(policy, s).value, Headed(Blocks(s.claims)), policy.facts)
  {
    BlockLines(s.claims, b);
    NothingLive(sections, dropped, policy, {}, s, b);
    SpentBlockSize(b, dropped, SpecOf(policy, s).value, Headed(Blocks(s.claims)), policy.facts, demanded);
  }

  lemma {:induction false} SpentBlockSize(
      b: Block, dropped: set<string>, spec: SectionSpec, headed: bool, facts: FactStore, demanded: set<string>)
    requires Evidence(b.lines) && BlockHolds(b, dropped, spec, headed, facts, demanded)
    requires BlockCandidate(NarrowBlock(b, dropped), spec, headed, facts, {}).None?
    ensures |Kept(b.lines, dropped)| == FinalSize(b, spec, headed, facts)
  {
    ProtectedStay(b.lines, dropped, spec, facts);
    if |Kept(b.lines, dropped)| > Floor(b, spec, headed, facts) {
      LastKept(b.lines, dropped, spec, facts, {});
      OnlyUntouchableLeft(b.lines, dropped, spec, facts);
    }
  }

  lemma {:induction false} OnlyUntouchableLeft(
      lines: seq<Claim>, dropped: set<string>, spec: SectionSpec, facts: FactStore)
    requires NoneLeft(lines, dropped, spec, facts, {})
    ensures forall c :: c in lines && c.claimId !in dropped ==> Untouchable(c, spec, facts)
  {
    forall c | c in lines && c.claimId !in dropped
      ensures Untouchable(c, spec, facts)
    {
      var j :| 0 <= j < |lines| && lines[j] == c;
      LinesGo(c, spec, facts, {});
    }
  }

  /** Whatever is dropped, no block is further above its floor than some block was before:
      within a phase the chosen surplus never rises, and a phase that ran dry stays dry. */
  lemma {:induction false} SurplusNeverRises(
      sections: seq<Section>, dropped: set<string>, id: string, policy: Policy, spare: set<string>, c: Candidate)
    requires Offers(sections, dropped + {id}, policy, spare, c)
    ensures exists d :: Offers(sections, dropped, policy, spare, d) && d.surplus >= c.surplus
  {
    var s, b :| s in sections && SpecOf(policy, s).Some? && b in Blocks(s.claims)
      && Live(s, b, dropped + {id}, policy, spare) == Some(c);
    var spec := SpecOf(policy, s).value;
    BlockLines(s.claims, b);
    LastKept(b.lines, dropped, spec, policy.facts, spare);
    LastKept(b.lines, dropped + {id}, spec, policy.facts, spare);
    WithoutTwice(b.lines, dropped, {id});
    WithoutMembers(Without(b.lines, dropped), {id});
    var before := Live(s, b, dropped, policy, spare);
    assert before.Some? && before.value.surplus >= c.surplus;
    assert Offers(sections, dropped, policy, spare, before.value);
  }

  // ----- what that means for the reader of the CV -----

  /** At every point of a run, a block keeps what the Profile promises and every untouchable
      line, so a heading that had a line under it still has one. */
  lemma {:induction false} BlocksKeepTheirFloor(
      sections: seq<Section>, dropped: set<string>, policy: Policy, demanded: set<string>, s: Section, b: Block)
    requires RunHolds(sections, dropped, policy, demanded)
    requires s in sections && SpecOf(policy, s).Some? && b in Blocks(s.claims)
    ensures KeepsPromise(b, s.claims, SpecOf(policy, s).value, policy.facts, |Kept(b.lines, dropped)|)
    ensures |Kept(b.lines, dropped)| >= UntouchableCount(b.lines, SpecOf(policy, s).value, policy.facts)
    ensures b.heading.Some? && b.lines != [] ==> Kept(b.lines, dropped) != []
  {
    BlockLines(s.claims, b);
    HeadedExactly(s.claims);
    ProtectedStay(b.lines, dropped, SpecOf(policy, s).value, policy.facts);
    assert BlockHolds(b, dropped, SpecOf(policy, s).value, Headed(Blocks(s.claims)), policy.facts, demanded);
    WithoutMembers(b.lines, dropped);
  }

  lemma {:induction false} RunKeepsPromise(
      sections: seq<Section>, dropped: set<string>, policy: Policy, demanded: set<string>)
    requires RunHolds(sections, dropped, policy, demanded)
    ensures PromiseHolds(sections, dropped, policy)
  {
    forall s, b | s in sections && SpecOf(policy, s).Some? && b in Blocks(s.claims)
      ensures KeepsPromise(b, s.claims, SpecOf(policy, s).value, policy.facts, |Kept(b.lines, dropped)|)
    {
      BlocksKeepTheirFloor(sections, dropped, policy, demanded, s, b);
    }
  }

  /** At every point of a run, the document still holds every heading, date and contact
      line, every pinned line and role title, and every line of a section the Profile does
      not name. */
  lemma {:induction false} RunKeeps(
      sections: seq<Section>, dropped: set<string>, optional: set<string>, policy: Policy, demanded: set<string>,
      s: Section, line: Claim)
    requires RunHolds(sections, dropped, policy, demanded)
    requires s in sections && line in s.claims
    requires Structural(line.style) || SpecOf(policy, s).None?
      || Untouchable(line, SpecOf(policy, s).value, policy.facts)
    ensures line in SectionClaims(WithoutSections(sections, dropped, optional))
  {
    var k :| 0 <= k < |sections| && sections[k] == s;
    ClaimInSection(sections, k, line);
    NarrowedLines(sections, dropped, optional);
    WithoutMembers(SectionClaims(sections), dropped);
    if !Structural(line.style) && SpecOf(policy, s).Some? {
      var b := EvidenceHasBlock(s.claims, line);
      assert BlockHolds(b, dropped, SpecOf(policy, s).value, Headed(Blocks(s.claims)), policy.facts, demanded);
    }
  }

  lemma {:induction false} EvidenceHasBlock(claims: seq<Claim>, line: Claim) returns (block: Block)
    requires line in claims && !Structural(line.style)
    ensures block in Blocks(claims) && line in block.lines
    decreases |claims|
  {
    LeadOrLater(claims, line);
    if line in Lead(claims) {
      block := Block(None, Lead(claims));
    } else {
      block := HeadedEvidence(FromHeading(claims), line);
    }
  }

  lemma {:induction false} LeadOrLater(claims: seq<Claim>, line: Claim)
    requires line in claims && !Structural(line.style)
    ensures line in Lead(claims) || line in FromHeading(claims)
  {
    if !claims[0].style.Heading? && line != claims[0] {
      LeadOrLater(claims[1..], line);
    }
  }

  lemma {:induction false} HeadedEvidence(claims: seq<Claim>, line: Claim) returns (block: Block)
    requires claims != [] && claims[0].style.Heading?
    requires line in claims && !Structural(line.style)
    ensures block in HeadedBlocks(claims) && line in block.lines
    decreases |claims|
  {
    LeadOrLater(claims[1..], line);
    if line in Lead(claims[1..]) {
      block := Block(Some(claims[0]), Lead(claims[1..]));
    } else {
      block := HeadedEvidence(FromHeading(claims[1..]), line);
    }
  }
}
