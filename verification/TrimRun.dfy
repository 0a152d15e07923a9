/** The loop that computes a draft's whole drop order (services/drafts/authoring.py), proved
    against the closed form of `Trimming`. */
module TrimRun {
  import opened Wrappers
  import opened Contracts
  import opened Narrowing
  import opened PageFit
  import opened Trimming

  function Dropped(order: seq<string>): set<string> {
    set id | id in order
  }

  function StructureCount(claims: seq<Claim>): nat {
    if claims == [] then 0 else (if Structural(claims[0].style) then 1 else 0) + StructureCount(claims[1..])
  }

  lemma {:induction false} StructureIsLeft(claims: seq<Claim>, dropped: set<string>)
    ensures |Without(claims, dropped)| >= StructureCount(claims)
  {
    if claims != [] {
      StructureIsLeft(claims[1..], dropped);
    }
  }

  predicate Demanded(c: Candidate, demanded: set<string>) {
    IsDemanded(c.line, demanded)
  }

  /** The order of a run: every line the posting does not demand before any it does, and
      within each of the two phases the surplus given up from never rises. */
  predicate Ordered(steps: seq<Candidate>, demanded: set<string>) {
    forall i, j :: 0 <= i < j < |steps| ==>
      && (Demanded(steps[i], demanded) ==> Demanded(steps[j], demanded))
      && (Demanded(steps[i], demanded) == Demanded(steps[j], demanded) ==> steps[j].surplus <= steps[i].surplus)
  }

  /** Where a run stands with respect to the two phases. */
  ghost predicate PhasesHold(
      sections: seq<Section>, dropped: set<string>, policy: Policy, demanded: set<string>, steps: seq<Candidate>)
  {
    && Ordered(steps, demanded)
    && (steps != [] && Demanded(steps[|steps| - 1], demanded) ==>
          && NothingOffered(sections, dropped, policy, demanded)
          && forall c :: Offers(sections, dropped, policy, {}, c) ==> c.surplus <= steps[|steps| - 1].surplus)
    && (steps != [] && !Demanded(steps[|steps| - 1], demanded) ==>
          forall c :: Offers(sections, dropped, policy, demanded, c) ==> c.surplus <= steps[|steps| - 1].surplus)
  }

  /** Once only demanded lines may go, only demanded lines do. */
  lemma {:induction false} SecondPhaseDropsDemanded(
      sections: seq<Section>, dropped: set<string>, policy: Policy, demanded: set<string>, c: Candidate)
    requires NothingOffered(sections, dropped, policy, demanded) && Offers(sections, dropped, policy, {}, c)
    ensures Demanded(c, demanded)
  {
    var s, b :| s in sections && SpecOf(policy, s).Some? && b in Blocks(s.claims)
      && Live(s, b, dropped, policy, {}) == Some(c);
    var spec := SpecOf(policy, s).value;
    BlockLines(s.claims, b);
    LastKept(b.lines, dropped, spec, policy.facts, {});
    LastKept(b.lines, dropped, spec, policy.facts, demanded);
    NothingLive(sections, dropped, policy, demanded, s, b);
  }

  lemma {:induction false} StepKeepsPhases(
      sections: seq<Section>, dropped: set<string>, policy: Policy, demanded: set<string>, spare: set<string>,
      steps: seq<Candidate>, c: Candidate)
    requires UniqueLineIds(sections) && PhasesHold(sections, dropped, policy, demanded, steps)
    requires Chosen(sections, dropped, policy, spare, c)
    requires (spare == demanded && !Demanded(c, demanded))
      || (spare == {} && NothingOffered(sections, dropped, policy, demanded) && Demanded(c, demanded))
    ensures PhasesHold(sections, dropped + {c.line.claimId}, policy, demanded, steps + [c])
  {
    var id := c.line.claimId;
    forall d | Offers(sections, dropped + {id}, policy, spare, d) ensures d.surplus <= c.surplus {
      SurplusNeverRises(sections, dropped, id, policy, spare, d);
    }
    if Demanded(c, demanded) {
      forall d ensures !Offers(sections, dropped + {id}, policy, demanded, d) {
        if Offers(sections, dropped + {id}, policy, demanded, d) {
          SurplusNeverRises(sections, dropped, id, policy, demanded, d);
        }
      }
    }
    if steps != [] {
      var last := steps[|steps| - 1];
      assert Demanded(last, demanded) == Demanded(c, demanded) ==> c.surplus <= last.surplus;
      assert Demanded(last, demanded) ==> Demanded(c, demanded);
    }
    OrderExtends(steps, c, demanded);
  }

  lemma {:induction false} OrderExtends(steps: seq<Candidate>, c: Candidate, demanded: set<string>)
    requires Ordered(steps, demanded)
    requires steps != [] ==>
      && (Demanded(steps[|steps| - 1], demanded) ==> Demanded(c, demanded))
      && (Demanded(steps[|steps| - 1], demanded) == Demanded(c, demanded) ==> c.surplus <= steps[|steps| - 1].surplus)
    ensures Ordered(steps + [c], demanded)
  {
    if steps != [] {
      var last := steps[|steps| - 1];
      assert forall i :: 0 <= i < |steps| ==>
        (Demanded(steps[i], demanded) ==> Demanded(last, demanded))
        && (Demanded(steps[i], demanded) == Demanded(last, demanded) ==> last.surplus <= steps[i].surplus);
    }
  }

  /** The next drop: which phase chose it, and that everything that held still holds. */
  lemma {:induction false} NextStep(
      sections: seq<Section>, dropped: set<string>, optional: set<string>, current: seq<Section>, policy: Policy,
      demanded: set<string>, steps: seq<Candidate>, c: Candidate)
    requires UniqueLineIds(sections) && StandsAt(sections, dropped, optional, current)
    requires RunHolds(sections, dropped, policy, demanded)
    requires PhasesHold(sections, dropped, policy, demanded, steps)
    requires NextCandidate(current, policy, demanded) == Some(c)
    ensures c.line in SectionClaims(sections) && !Structural(c.line.style) && c.line.claimId !in dropped
    ensures RunHolds(sections, dropped + {c.line.claimId}, policy, demanded)
    ensures PhasesHold(sections, dropped + {c.line.claimId}, policy, demanded, steps + [c])
  {
    PhaseChooses(sections, dropped, optional, current, policy, demanded);
    PhaseChooses(sections, dropped, optional, current, policy, {});
    var spare := if PhasePick(current, policy, demanded).Some? then demanded else {};
    ChosenLine(sections, dropped, policy, spare, c);
    if PhasePick(current, policy, demanded).None? {
      SecondPhaseDropsDemanded(sections, dropped, policy, demanded, c);
    }
    StepHolds(sections, dropped, policy, demanded, spare, c);
    StepKeepsPhases(sections, dropped, policy, demanded, spare, steps, c);
  }

  lemma {:induction false} DropIsAllowed(
      sections: seq<Section>, dropped: set<string>, optional: set<string>, current: seq<Section>, line: Claim)
    requires UniqueLineIds(sections) && StandsAt(sections, dropped, optional, current)
    requires line in SectionClaims(sections) && !Structural(line.style) && line.claimId !in dropped
    ensures UniqueLineIds(current)
    ensures line in SectionClaims(current)
    ensures forall c :: c in SectionClaims(current) && c.claimId == line.claimId ==> c == line
    ensures WithoutSections(current, {line.claimId}, optional) ==
      WithoutSections(sections, dropped + {line.claimId}, optional)
    ensures |SectionClaims(WithoutSections(current, {line.claimId}, optional))| == |SectionClaims(current)| - 1
  {
    var all, id := SectionClaims(sections), line.claimId;
    WithoutKeepsUniqueIds(sections, dropped, optional);
    NarrowedLines(sections, dropped, optional);
    WithoutMembers(all, dropped);
    var held := SectionClaims(current);
    forall c | c in held && c.claimId == id ensures c == line {
      var i, j :| 0 <= i < |held| && held[i] == c && 0 <= j < |held| && held[j] == line;
    }
    NarrowedLines(current, {id}, optional);
    WithoutNothing(held);
    DropOne(held, {}, id);
    assert {} + {id} == {id};
    if current == WithoutSections(sections, dropped, optional) {
      WithoutSectionsTwice(sections, dropped, {id}, optional);
    } else {
      assert dropped + {id} == {id};
    }
  }

  /** Each recorded draft is the original without the lines dropped so far. */
  predicate TrimsMatch(draft: Draft, optional: set<string>, order: seq<string>, trims: seq<Draft>) {
    && |trims| == |order|
    && forall k :: 0 <= k < |order| ==> trims[k] == Seal(WithoutLines(draft.body, Dropped(order[..k + 1]), optional))
  }

  predicate EveryPrefixHolds(sections: seq<Section>, order: seq<string>, policy: Policy, demanded: set<string>) {
    forall k :: 0 <= k <= |order| ==> RunHolds(sections, Dropped(order[..k]), policy, demanded)
  }

  /** Every draft on the way keeps the Profile's promise. */
  predicate EveryPrefixPromises(sections: seq<Section>, order: seq<string>, policy: Policy) {
    forall k :: 0 <= k <= |order| ==> PromiseHolds(sections, Dropped(order[..k]), policy)
  }

  lemma {:induction false} PrefixesPromise(
      sections: seq<Section>, order: seq<string>, policy: Policy, demanded: set<string>)
    requires EveryPrefixHolds(sections, order, policy, demanded)
    ensures EveryPrefixPromises(sections, order, policy)
  {
    forall k | 0 <= k <= |order|
      ensures PromiseHolds(sections, Dropped(order[..k]), policy)
    {
      RunKeepsPromise(sections, Dropped(order[..k]), policy, demanded);
    }
  }

  predicate NamesLines(order: seq<string>, steps: seq<Candidate>) {
    |order| == |steps| && forall k :: 0 <= k < |order| ==> steps[k].line.claimId == order[k]
  }

  /** The draft a run stands at after k drops. */
  function DraftAfter(draft: Draft, trims: seq<Draft>, k: nat): Draft
    requires k <= |trims|
  {
    if k == 0 then draft else trims[k - 1]
  }

  /** Each step is what the policy gives up next from the draft as it then is. */
  predicate StepsChosen(draft: Draft, trims: seq<Draft>, steps: seq<Candidate>, policy: Policy, demanded: set<string>) {
    && |steps| == |trims|
    && forall k :: 0 <= k < |steps| ==>
         NextCandidate(DraftAfter(draft, trims, k).body.sections, policy, demanded) == Some(steps[k])
  }

  /** What a run has established when it stands at `current`. */
  ghost predicate RunsTo(
      draft: Draft, optional: set<string>, policy: Policy, demanded: set<string>, order: seq<string>,
      trims: seq<Draft>, steps: seq<Candidate>, current: Draft)
  {
    && NamesLines(order, steps)
    && TrimsMatch(draft, optional, order, trims)
    && StepsChosen(draft, trims, steps, policy, demanded) && current == DraftAfter(draft, trims, |trims|)
    && EveryPrefixHolds(draft.body.sections, order, policy, demanded)
    && RunHolds(draft.body.sections, Dropped(order), policy, demanded)
    && PhasesHold(draft.body.sections, Dropped(order), policy, demanded, steps)
    && StandsAt(draft.body.sections, Dropped(order), optional, current.body.sections)
    && current.body == draft.body.(sections := current.body.sections)
    && |SectionClaims(current.body.sections)| + |order| == |SectionClaims(draft.body.sections)|
  }

  lemma {:induction false} PrefixesExtend(
      sections: seq<Section>, order: seq<string>, id: string, policy: Policy, demanded: set<string>)
    requires EveryPrefixHolds(sections, order, policy, demanded)
    requires RunHolds(sections, Dropped(order + [id]), policy, demanded)
    ensures EveryPrefixHolds(sections, order + [id], policy, demanded)
  {
    var next := order + [id];
    forall k | 0 <= k <= |next| ensures RunHolds(sections, Dropped(next[..k]), policy, demanded) {
      assert next[..k] == if k <= |order| then order[..k] else next;
    }
  }

  lemma {:induction false} TrimsExtend(
      draft: Draft, optional: set<string>, order: seq<string>, trims: seq<Draft>, id: string, next: Draft)
    requires TrimsMatch(draft, optional, order, trims)
    requires next == Seal(WithoutLines(draft.body, Dropped(order + [id]), optional))
    ensures TrimsMatch(draft, optional, order + [id], trims + [next])
  {
    var longer := order + [id];
    forall k | 0 <= k < |longer|
      ensures (trims + [next])[k] == Seal(WithoutLines(draft.body, Dropped(longer[..k + 1]), optional))
    {
      assert longer[..k + 1] == if k < |order| then order[..k + 1] else longer;
    }
  }

  /** The named line is one `DropClaims` accepts. */
  lemma {:induction false} LineMayGo(body: DraftBody, line: Claim)
    requires line in SectionClaims(body.sections) && !Structural(line.style)
    requires forall c :: c in SectionClaims(body.sections) && c.claimId == line.claimId ==> c == line
    ensures {line.claimId} <= LineIds(body) && {line.claimId} * StructureIds(body) == {}
  {
  }

  lemma {:induction false} RunStepIsDrop(
      sections: seq<Section>, dropped: set<string>, optional: set<string>, current: DraftBody, line: Claim)
    requires UniqueLineIds(sections) && StandsAt(sections, dropped, optional, current.sections)
    requires line in SectionClaims(sections) && !Structural(line.style) && line.claimId !in dropped
    ensures UniqueLineIds(current.sections)
    ensures {line.claimId} <= LineIds(current) && {line.claimId} * StructureIds(current) == {}
    ensures WithoutSections(current.sections, {line.claimId}, optional) ==
      WithoutSections(sections, dropped + {line.claimId}, optional)
    ensures |SectionClaims(WithoutSections(current.sections, {line.claimId}, optional))| ==
      |SectionClaims(current.sections)| - 1
  {
    DropIsAllowed(sections, dropped, optional, current.sections, line);
    LineMayGo(current, line);
  }

  lemma {:induction false} RunStep(
      draft: Draft, optional: set<string>, policy: Policy, demanded: set<string>, order: seq<string>,
      trims: seq<Draft>, steps: seq<Candidate>, current: Draft, c: Candidate, next: Draft)
    requires UniqueLineIds(draft.body.sections)
    requires RunsTo(draft, optional, policy, demanded, order, trims, steps, current)
    requires NextCandidate(current.body.sections, policy, demanded) == Some(c)
    requires next == Seal(WithoutLines(current.body, {c.line.claimId}, optional))
    ensures RunsTo(draft, optional, policy, demanded, order + [c.line.claimId], trims + [next], steps + [c], next)
  {
    var id := c.line.claimId;
    NextStep(draft.body.sections, Dropped(order), optional, current.body.sections, policy, demanded, steps, c);
    RunStepIsDrop(draft.body.sections, Dropped(order), optional, current.body, c.line);
    assert Dropped(order + [id]) == Dropped(order) + {id};
    PrefixesExtend(draft.body.sections, order, id, policy, demanded);
    TrimsExtend(draft, optional, order, trims, id, next);
    ChoiceExtends(draft, trims, steps, policy, demanded, c, next);
  }

  lemma {:induction false} ChoiceExtends(
      draft: Draft, trims: seq<Draft>, steps: seq<Candidate>, policy: Policy, demanded: set<string>, c: Candidate,
      next: Draft)
    requires StepsChosen(draft, trims, steps, policy, demanded)
    requires NextCandidate(DraftAfter(draft, trims, |trims|).body.sections, policy, demanded) == Some(c)
    ensures StepsChosen(draft, trims + [next], steps + [c], policy, demanded)
  {
    forall k | 0 <= k < |steps + [c]|
      ensures NextCandidate(DraftAfter(draft, trims + [next], k).body.sections, policy, demanded) ==
        Some((steps + [c])[k])
    {
      assert DraftAfter(draft, trims + [next], k) == DraftAfter(draft, trims, k);
    }
  }

  /** Every line the policy gives up, in order, and the draft after each drop.

      Whatever the posting demands and however long the draft is, the run ends with every
      block at its closed form, every draft on the way holds the policy's promises, and the
      order is the promised one: `steps` are the candidates the policy chose, each from the
      draft as it then was, until it chose none. */
  method TrimOrder(draft: Draft, profile: Profile, facts: FactStore, demanded: set<string>)
    returns (order: seq<string>, trims: seq<Draft>, ghost steps: seq<Candidate>)
    requires UniqueLineIds(draft.body.sections)
    ensures NamesLines(order, steps) && Ordered(steps, demanded)
    ensures TrimsMatch(draft, OptionalNames(profile, draft.body.language), order, trims)
    ensures var policy := Policy(profile.sections, draft.body.language, facts);
      && StepsChosen(draft, trims, steps, policy, demanded)
      && NextCandidate(DraftAfter(draft, trims, |trims|).body.sections, policy, demanded).None?
      && EveryPrefixHolds(draft.body.sections, order, policy, demanded)
      && EveryPrefixPromises(draft.body.sections, order, policy)
      && FullyTrimmed(draft.body.sections, Dropped(order), policy, demanded)
    ensures |order| <= |SectionClaims(draft.body.sections)| - StructureCount(SectionClaims(draft.body.sections))
  {
    var policy := Policy(profile.sections, draft.body.language, facts);
    ghost var optional := OptionalNames(profile, draft.body.language);
    order, trims, steps := [], [], [];
    var current := draft;
    StartHolds(draft.body.sections, policy, demanded);
    assert Dropped([]) == {};
    var claimId := NextTrim(current.body.sections, policy, demanded);
    while claimId.Some?
      invariant RunsTo(draft, optional, policy, demanded, order, trims, steps, current)
      invariant claimId.None? <==> NextCandidate(current.body.sections, policy, demanded).None?
      invariant claimId.Some? ==>
        claimId.value == NextCandidate(current.body.sections, policy, demanded).value.line.claimId
      decreases |SectionClaims(current.body.sections)|
    {
      ghost var c := NextCandidate(current.body.sections, policy, demanded).value;
      NextStep(draft.body.sections, Dropped(order), optional, current.body.sections, policy, demanded, steps, c);
      RunStepIsDrop(draft.body.sections, Dropped(order), optional, current.body, c.line);
      var dropped := DropClaims(current, profile, {claimId.value});
      RunStep(draft, optional, policy, demanded, order, trims, steps, current, c, dropped.value);
      order, steps := order + [claimId.value], steps + [c];
      current := dropped.value;
      trims := trims + [current];
      claimId := NextTrim(current.body.sections, policy, demanded);
    }
    RunEnds(draft, optional, policy, demanded, order, trims, steps, current);
    PrefixesPromise(draft.body.sections, order, policy, demanded);
  }

  lemma {:induction false} RunEnds(
      draft: Draft, optional: set<string>, policy: Policy, demanded: set<string>, order: seq<string>,
      trims: seq<Draft>, steps: seq<Candidate>, current: Draft)
    requires RunsTo(draft, optional, policy, demanded, order, trims, steps, current)
    requires NextCandidate(current.body.sections, policy, demanded).None?
    ensures FullyTrimmed(draft.body.sections, Dropped(order), policy, demanded)
    ensures |order| <= |SectionClaims(draft.body.sections)| - StructureCount(SectionClaims(draft.body.sections))
  {
    var sections, dropped := draft.body.sections, Dropped(order);
    assert order[..|order|] == order;
    PhaseChooses(sections, dropped, optional, current.body.sections, policy, {});
    EndIsFullyTrimmed(sections, dropped, policy, demanded);
    NarrowedLines(sections, dropped, optional);
    StructureIsLeft(SectionClaims(sections), dropped);
    WithoutNothing(SectionClaims(sections));
    StructureIsLeft(SectionClaims(sections), {});
  }

  /** No draft on the way has a heading with nothing under it that the original did not:
      each dangling heading is one that dangled before, whatever its neighbours do. */
  lemma {:induction false} TrimmingDanglesNothing(
      sections: seq<Section>, dropped: set<string>, policy: Policy, demanded: set<string>, s: Section, b: Block)
    requires RunHolds(sections, dropped, policy, demanded) && s in sections
    requires b in Blocks(Without(s.claims, dropped)) && b.heading.Some? && b.lines == []
    ensures b in Blocks(s.claims)
  {
    BlocksNarrow(s.claims, dropped, b);
    var o :| o in Blocks(s.claims) && b == NarrowBlock(o, dropped);
    if SpecOf(policy, s).Some? {
      BlocksKeepTheirFloor(sections, dropped, policy, demanded, s, o);
    } else {
      BlockLines(s.claims, o);
      UnnamedStay(o.lines, dropped);
    }
    assert o.lines == [];
  }
}
