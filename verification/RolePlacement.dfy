/** Why a generated draft never attributes a line to the wrong role, and why taking lines
    out of it never does (domain/frame.py, domain/drafts.py). */
module RolePlacement {
  import opened Contracts
  import opened Narrowing
  import opened Presentations
  import opened Frame

  function ClaimFacts(claims: seq<Claim>): seq<string> {
    if claims == [] then [] else ClaimFacts(claims[..|claims| - 1]) + claims[|claims| - 1].factIds
  }

  predicate NoTitles(ids: seq<string>, facts: FactStore) {
    forall id :: id in ids ==> !IsRoleTitle(facts, id)
  }

  // ----- titles and filtering -----

  lemma {:induction false} FilterAppends(ids: seq<string>, last: string, kept: set<string>)
    ensures Filter(ids + [last], kept) == if last in kept then Filter(ids, kept) + [last] else Filter(ids, kept)
  {
    if ids == [] {
      assert [] + [last] == [last];
      assert Filter([last], kept) == if last in kept then [last] + Filter([], kept) else Filter([], kept);
    } else {
      FilterAppends(ids[1..], last, kept);
      assert (ids + [last])[0] == ids[0] && (ids + [last])[1..] == ids[1..] + [last];
    }
  }

  lemma {:induction false} FilterKeepsLastTitle(ids: seq<string>, kept: set<string>, facts: FactStore)
    requires forall id :: id in ids && IsRoleTitle(facts, id) ==> id in kept
    ensures LastTitle(Filter(ids, kept), facts) == LastTitle(ids, facts)
  {
    if ids != [] {
      var front, last := ids[..|ids| - 1], ids[|ids| - 1];
      assert ids == front + [last];
      FilterKeepsLastTitle(front, kept, facts);
      FilterAppends(front, last, kept);
      var left := Filter(front, kept);
      assert (left + [last])[..|left|] == left;
    }
  }

  /** The role the pool gives a laid-out fact is the last title laid out before it. */
  lemma {:induction false} LaidOutRole(pool: seq<string>, kept: set<string>, facts: FactStore, j: nat)
    requires Distinct(pool) && j < |Filter(pool, kept)|
    requires forall id :: id in pool && IsRoleTitle(facts, id) ==> id in kept
    ensures Filter(pool, kept)[j] in pool
    ensures RoleOf(pool, facts, Filter(pool, kept)[j]) == LastTitle(Filter(pool, kept)[..j + 1], facts)
  {
    var front, last := pool[..|pool| - 1], pool[|pool| - 1];
    assert pool == front + [last];
    FilterAppends(front, last, kept);
    if j < |Filter(front, kept)| {
      LaidOutRole(front, kept, facts, j);
      RoleOfPrefix(pool, front, Filter(front, kept)[j], facts);
      assert Filter(pool, kept)[..j + 1] == Filter(front, kept)[..j + 1];
    } else {
      LastLaidOutRole(pool, kept, facts);
      assert Filter(pool, kept)[..j + 1] == Filter(pool, kept);
    }
  }

  lemma {:induction false} RoleOfPrefix(pool: seq<string>, front: seq<string>, id: string, facts: FactStore)
    requires front <= pool && id in front
    ensures id in pool && RoleOf(pool, facts, id) == RoleOf(front, facts, id)
  {
    FirstIndexInPrefix(pool, front, id);
  }

  lemma {:induction false} LastLaidOutRole(pool: seq<string>, kept: set<string>, facts: FactStore)
    requires Distinct(pool) && pool != []
    requires forall id :: id in pool && IsRoleTitle(facts, id) ==> id in kept
    ensures RoleOf(pool, facts, pool[|pool| - 1]) == LastTitle(Filter(pool, kept), facts)
  {
    FirstIndex(pool, |pool| - 1);
    assert pool[..|pool|] == pool;
    FilterKeepsLastTitle(pool, kept, facts);
  }

  lemma {:induction false} FirstIndexInPrefix(ids: seq<string>, front: seq<string>, id: string)
    requires front <= ids && id in front
    ensures id in ids && IndexOf(ids, id) == IndexOf(front, id)
    ensures ids[..IndexOf(ids, id) + 1] == front[..IndexOf(front, id) + 1]
  {
    if front[0] != id {
      FirstIndexInPrefix(ids[1..], front[1..], id);
    }
  }

  lemma {:induction false} TitlesConcat(a: seq<string>, b: seq<string>, facts: FactStore)
    requires NoTitles(b, facts)
    ensures LastTitle(a + b, facts) == LastTitle(a, facts)
  {
    if b == [] {
      assert a + b == a;
    } else {
      TitlesConcat(a, b[..|b| - 1], facts);
      assert (a + b)[..|a + b| - 1] == a + b[..|b| - 1];
      assert b[|b| - 1] in b;
    }
  }

  lemma {:induction false} FirstTitleFound(ids: seq<string>, facts: FactStore)
    ensures FirstTitle(ids, facts).None? <==> NoTitles(ids, facts)
    ensures FirstTitle(ids, facts).Some? ==>
      FirstTitle(ids, facts).value in ids && IsRoleTitle(facts, FirstTitle(ids, facts).value)
  {
    if ids != [] {
      FirstTitleFound(ids[1..], facts);
      assert ids == [ids[0]] + ids[1..];
    }
  }

  /** A role title is a line of its own. */
  predicate TitlesAlone(claims: seq<Claim>, facts: FactStore) {
    forall c :: c in claims ==> NoTitles(c.factIds, facts) || |c.factIds| == 1
  }

  lemma {:induction false} RoleAboveIsLastTitle(claims: seq<Claim>, facts: FactStore)
    requires TitlesAlone(claims, facts)
    ensures RoleAbove(claims, facts) == LastTitle(ClaimFacts(claims), facts)
  {
    if claims != [] {
      var front, last := claims[..|claims| - 1], claims[|claims| - 1];
      assert last in claims && forall c :: c in front ==> c in claims;
      RoleAboveIsLastTitle(front, facts);
      FirstTitleFound(last.factIds, facts);
      if NoTitles(last.factIds, facts) {
        TitlesConcat(ClaimFacts(front), last.factIds, facts);
      }
    }
  }

  /** A fact of a line `own` that follows `before` belongs to the role the line sits under. */
  lemma {:induction false} FactSitsUnderItsRole(
      before: seq<string>, own: seq<string>, m: nat, pool: seq<string>, kept: set<string>, facts: FactStore)
    requires Distinct(pool) && forall id :: id in pool && IsRoleTitle(facts, id) ==> id in kept
    requires before + own <= Filter(pool, kept) && m < |own|
    requires NoTitles(own, facts) || |own| == 1
    ensures own[m] in pool && RoleOf(pool, facts, own[m]) == LastTitle(before + own, facts)
  {
    var all, j := Filter(pool, kept), |before| + m;
    assert all[j] == (before + own)[j] == own[m];
    LaidOutRole(pool, kept, facts, j);
    assert all[..j + 1] == before + own[..m + 1];
    if NoTitles(own, facts) {
      TitlesConcat(before, own[..m + 1], facts);
      TitlesConcat(before, own, facts);
    } else {
      assert own[..m + 1] == own;
    }
  }

  /** Lines laid out in pool order, with every title of the pool among them and alone on
      its line, sit under the role their facts belong to. */
  lemma {:induction false} LaidOutIsWellPlaced(
      claims: seq<Claim>, pool: seq<string>, kept: set<string>, facts: FactStore)
    requires Distinct(pool) && forall id :: id in pool && IsRoleTitle(facts, id) ==> id in kept
    requires TitlesAlone(claims, facts) && ClaimFacts(claims) == Filter(pool, kept)
    ensures WellPlaced(claims, pool, facts)
  {
    forall k | 1 <= k <= |claims| ensures !LastMisplaced(claims[..k], pool, facts) {
      var upTo := claims[..k];
      var last, before := upTo[k - 1], ClaimFacts(upTo[..k - 1]);
      assert last in claims && forall c :: c in upTo ==> c in claims;
      RoleAboveIsLastTitle(upTo, facts);
      FactsOfPrefix(claims, k);
      forall id | id in last.factIds ensures id in pool && RoleOf(pool, facts, id) == RoleAbove(upTo, facts) {
        var m :| 0 <= m < |last.factIds| && last.factIds[m] == id;
        FactSitsUnderItsRole(before, last.factIds, m, pool, kept, facts);
      }
    }
  }

  lemma {:induction false} FactsOfPrefix(claims: seq<Claim>, k: nat)
    requires k <= |claims|
    ensures ClaimFacts(claims[..k]) <= ClaimFacts(claims)
  {
    if k < |claims| {
      var front := claims[..|claims| - 1];
      FactsOfPrefix(front, k);
      assert front[..k] == claims[..k];
    } else {
      assert claims[..k] == claims;
    }
  }

  // ----- taking lines out -----

  /** Every line that links a role title is structure, so nothing may take it out. */
  predicate TitlesAreStructure(claims: seq<Claim>, facts: FactStore) {
    forall c :: c in claims && FirstTitle(c.factIds, facts).Some? ==> Structural(c.style)
  }

  lemma {:induction false} NarrowingKeepsRole(claims: seq<Claim>, dropped: set<string>, facts: FactStore)
    requires TitlesAreStructure(claims, facts)
    ensures RoleAbove(Without(claims, dropped), facts) == RoleAbove(claims, facts)
  {
    if claims != [] {
      var front, last := claims[..|claims| - 1], claims[|claims| - 1];
      assert claims == front + [last] && last in claims;
      WithoutAppends(front, last, dropped);
      NarrowingKeepsRole(front, dropped, facts);
      var left := Without(front, dropped);
      assert (left + [last])[..|left|] == left && left + [] == left;
    }
  }

  lemma {:induction false} NarrowingKeepsPlacement(
      claims: seq<Claim>, dropped: set<string>, pool: seq<string>, facts: FactStore)
    requires WellPlaced(claims, pool, facts) && TitlesAreStructure(claims, facts)
    ensures WellPlaced(Without(claims, dropped), pool, facts)
    ensures TitlesAreStructure(Without(claims, dropped), facts)
  {
    WithoutMembers(claims, dropped);
    if claims != [] {
      var front, last := claims[..|claims| - 1], claims[|claims| - 1];
      assert claims == front + [last] && last in claims;
      WellPlacedSplits(claims, pool, facts);
      NarrowingKeepsPlacement(front, dropped, pool, facts);
      WithoutAppends(front, last, dropped);
      NarrowingKeepsRole(claims, dropped, facts);
      var left := Without(front, dropped);
      if Stays(last, dropped) {
        SamePlacement(claims, left + [last], pool, facts);
        assert (left + [last])[..|left|] == left;
        WellPlacedSplits(left + [last], pool, facts);
      } else {
        assert left + [] == left;
      }
    }
  }

  /** Whether a last line is misplaced depends on that line and the role it sits under. */
  lemma {:induction false} SamePlacement(a: seq<Claim>, b: seq<Claim>, pool: seq<string>, facts: FactStore)
    requires a != [] && b != [] && a[|a| - 1] == b[|b| - 1] && RoleAbove(a, facts) == RoleAbove(b, facts)
    ensures LastMisplaced(a, pool, facts) == LastMisplaced(b, pool, facts)
  {
  }

  // ----- whole documents -----

  /** Every section the Profile names is well placed against its own pool. */
  predicate DocumentWellPlaced(
      sections: seq<Section>, specs: seq<SectionSpec>, language: Language, facts: FactStore)
  {
    forall s :: s in sections && SpecNamed(specs, language, s.name).Some? ==>
      && WellPlaced(s.claims, SpecNamed(specs, language, s.name).value.factIds, facts)
      && TitlesAreStructure(s.claims, facts)
  }

  /** One narrowing: the lines that go, and the section names that go when emptied.
      Keeping a choice, trimming a line and removing a line are all of this form. */
  datatype Narrow = Narrow(dropped: set<string>, optional: set<string>)

  function NarrowAll(sections: seq<Section>, steps: seq<Narrow>): seq<Section> {
    if steps == [] then sections
    else
      var last := steps[|steps| - 1];
      WithoutSections(NarrowAll(sections, steps[..|steps| - 1]), last.dropped, last.optional)
  }

  /** No sequence of narrowings, trims and removals puts a line under the wrong role. */
  lemma {:induction false} NarrowingsKeepPlacement(
      sections: seq<Section>, steps: seq<Narrow>, specs: seq<SectionSpec>, language: Language, facts: FactStore)
    requires DocumentWellPlaced(sections, specs, language, facts)
    ensures DocumentWellPlaced(NarrowAll(sections, steps), specs, language, facts)
  {
    if steps != [] {
      var last := steps[|steps| - 1];
      var before := NarrowAll(sections, steps[..|steps| - 1]);
      NarrowingsKeepPlacement(sections, steps[..|steps| - 1], specs, language, facts);
      forall s | s in NarrowAll(sections, steps) && SpecNamed(specs, language, s.name).Some?
        ensures WellPlaced(s.claims, SpecNamed(specs, language, s.name).value.factIds, facts)
          && TitlesAreStructure(s.claims, facts)
      {
        NarrowedSections(before, last.dropped, last.optional, s);
        var t :| t in before && s == Narrowed(t, last.dropped);
        NarrowingKeepsPlacement(t.claims, last.dropped, SpecNamed(specs, language, s.name).value.factIds, facts);
      }
    }
  }
}
