/** Pairing every cited fact with a verbatim quote of its own (domain/claim_review.py).

    `PairingSearch` is the recursive closure with its shared `owner` map and `seen` set;
    `QuotesPairWithFacts` is the function around it. The specification never mentions the
    search: a pairing exists, or some facts have fewer fitting quotes than facts. */
module EvidencePairing {

  /** The two texts a quote may be taken from: the fact's meaning and its rendering. */
  datatype SourceTexts = SourceTexts(meaning: string, rendering: string)

  predicate OccursAt(text: string, quote: string, at: nat) {
    at + |quote| <= |text| && text[at..at + |quote|] == quote
  }

  predicate Contains(text: string, quote: string) {
    exists at | 0 <= at <= |text| :: OccursAt(text, quote, at)
  }

  /** A text contains a quote when the quote stands in it whole, between what comes before and after. */
  lemma {:induction false} ContainsExactly(text: string, quote: string)
    ensures Contains(text, quote) <==> exists before, after :: before + quote + after == text
  {
    if Contains(text, quote) {
      var at :| 0 <= at <= |text| && OccursAt(text, quote, at);
      assert text[..at] + quote + text[at + |quote|..] == text;
    }
    forall before, after | before + quote + after == text
      ensures Contains(text, quote)
    {
      assert OccursAt(before + quote + after, quote, |before|);
    }
  }

  predicate Quotable(texts: SourceTexts, quote: string) {
    Contains(texts.meaning, quote) || Contains(texts.rendering, quote)
  }

  // ----- what a pairing is -----

  predicate Injective(picks: seq<nat>) {
    forall i, j :: 0 <= i < j < |picks| ==> picks[i] != picks[j]
  }

  /** Fact `f` takes quote `picks[f]`; no quote serves two facts. */
  predicate IsPairing(sources: seq<SourceTexts>, quotes: seq<string>, picks: seq<nat>) {
    && |picks| == |sources|
    && (forall f :: 0 <= f < |picks| ==> picks[f] < |quotes| && Quotable(sources[f], quotes[picks[f]]))
    && Injective(picks)
  }

  ghost predicate Pairable(sources: seq<SourceTexts>, quotes: seq<string>) {
    exists picks: seq<nat> :: IsPairing(sources, quotes, picks)
  }

  /** The quotes that fit at least one of the named facts. */
  function FittingQuotes(sources: seq<SourceTexts>, quotes: seq<string>, facts: set<nat>): set<nat> {
    set q: nat, f | 0 <= q < |quotes| && f in facts && f < |sources| && Quotable(sources[f], quotes[q]) :: q
  }

  /** A set of facts with fewer fitting quotes than facts: no pairing can serve them all. */
  predicate HallViolator(sources: seq<SourceTexts>, quotes: seq<string>, facts: set<nat>) {
    && (forall f :: f in facts ==> f < |sources|)
    && |FittingQuotes(sources, quotes, facts)| < |facts|
  }

  // ----- the search -----

  /** `fits[f]` lists, in ascending order, the quotes found in one of fact f's texts. */
  ghost predicate FitsTable(sources: seq<SourceTexts>, quotes: seq<string>, fits: seq<seq<nat>>) {
    && |fits| == |sources|
    && forall f, q: nat :: 0 <= f < |fits| ==>
         (q in fits[f] <==> q < |quotes| && Quotable(sources[f], quotes[q]))
  }

  /** Every quote is owned by a fact it fits. */
  ghost predicate FittingOwners(fits: seq<seq<nat>>, owner: map<nat, nat>) {
    forall q :: q in owner ==> owner[q] < |fits| && q in fits[owner[q]]
  }

  /** No fact owns two quotes outside `seen`. */
  ghost predicate SingleOutside(owner: map<nat, nat>, seen: set<nat>) {
    forall p, q :: p in owner && q in owner && p !in seen && q !in seen && p != q ==> owner[p] != owner[q]
  }

  ghost function OwnersOutside(owner: map<nat, nat>, seen: set<nat>): set<nat> {
    set q | q in owner && q !in seen :: owner[q]
  }

  /** Every quote the search newly visited is owned, by a fact whose quotes were all visited. */
  ghost predicate Exhausted(fits: seq<seq<nat>>, owner: map<nat, nat>, before: set<nat>, seen: set<nat>) {
    forall q :: q in seen && q !in before ==>
      && q in owner && owner[q] < |fits|
      && forall p :: p in fits[owner[q]] ==> p in seen
  }

  class PairingSearch {
    const fits: seq<seq<nat>>
    const quoteCount: nat
    var owner: map<nat, nat>
    var seen: set<nat>

    constructor (fits: seq<seq<nat>>, quoteCount: nat)
      requires forall f, q :: 0 <= f < |fits| && q in fits[f] ==> q < quoteCount
      ensures this.fits == fits && this.quoteCount == quoteCount
      ensures owner == map[] && seen == {}
      ensures Valid()
    {
      this.fits, this.quoteCount := fits, quoteCount;
      owner, seen := map[], {};
    }

    ghost predicate Valid()
      reads this
    {
      && (forall f, q :: 0 <= f < |fits| && q in fits[f] ==> q < quoteCount)
      && (forall q :: q in seen ==> q < quoteCount)
      && FittingOwners(fits, owner)
    }

    /** Find `fact` a quote no visited quote's owner needs, re-owning quotes along the way.

        On success the quotes visited before the call keep their owners, and among the
        others exactly one more fact - `fact` itself - owns one. On failure nothing was
        re-owned, and everything `fact` could reach was visited and is taken. */
    method Assign(fact: nat) returns (ok: bool)
      requires Valid() && fact < |fits|
      requires SingleOutside(owner, seen) && fact !in OwnersOutside(owner, seen)
      modifies this`owner, this`seen
      ensures Valid() && old(seen) <= seen
      ensures ok ==> SingleOutside(owner, old(seen))
      ensures ok ==> OwnersOutside(owner, old(seen)) == old(OwnersOutside(owner, seen)) + {fact}
      ensures ok ==> forall q :: q in old(seen) ==>
        (q in owner <==> q in old(owner)) && (q in owner ==> owner[q] == old(owner)[q])
      ensures !ok ==> owner == old(owner)
      ensures !ok ==> Exhausted(fits, owner, old(seen), seen)
      ensures !ok ==> forall q :: q in fits[fact] ==> q in seen
      decreases quoteCount - |seen|
    {
      for i := 0 to |fits[fact]|
        invariant Valid() && owner == old(owner) && old(seen) <= seen
        invariant forall k :: 0 <= k < i ==> fits[fact][k] in seen
        invariant Exhausted(fits, owner, old(seen), seen)
      {
        var quote := fits[fact][i];
        if quote in seen {
          continue;
        }
        SizeOfSubset(old(seen), seen);
        assert quote in fits[fact];
        seen := seen + {quote};
        VisitedAreQuotes(seen, quoteCount);
        if quote !in owner {
          OwningAFreeQuote(owner, old(seen), quote, fact);
          owner := owner[quote := fact];
          return true;
        }
        ghost var entered := seen;
        var freed := Assign(owner[quote]);
        if freed {
          ghost var inner := owner;
          owner := owner[quote := fact];
          ReownedKeepsPairing(old(owner), inner, owner, old(seen), entered, quote, fact);
          return true;
        }
      }
      return false;
    }

  }

  /** A quote nobody owns passes to `fact`. */
  lemma {:induction false} OwningAFreeQuote(start: map<nat, nat>, before: set<nat>, quote: nat, fact: nat)
    requires quote !in start && quote !in before
    requires SingleOutside(start, before) && fact !in OwnersOutside(start, before)
    ensures SingleOutside(start[quote := fact], before)
    ensures OwnersOutside(start[quote := fact], before) == OwnersOutside(start, before) + {fact}
  {
    var final := start[quote := fact];
    assert final[quote] == fact;
    forall q | q in start && q !in before
      ensures final[q] == start[q] && start[q] in OwnersOutside(start, before)
    {
    }
    forall g | g in OwnersOutside(start, before)
      ensures g in OwnersOutside(final, before)
    {
      var q :| q in start && q !in before && start[q] == g;
      assert final[q] == g;
    }
  }

  /** Re-owning in the middle of the recursion: `rival` was found another quote outside
      `entered`, so `quote` may pass to `fact`. */
  lemma {:induction false} ReownedKeepsPairing(
      start: map<nat, nat>, inner: map<nat, nat>, final: map<nat, nat>,
      before: set<nat>, entered: set<nat>, quote: nat, fact: nat)
    requires quote in start && quote !in before && quote in entered && before <= entered
    requires SingleOutside(start, before) && fact !in OwnersOutside(start, before)
    requires SingleOutside(inner, entered)
    requires OwnersOutside(inner, entered) == OwnersOutside(start, entered) + {start[quote]}
    requires forall q :: q in entered ==>
      (q in inner <==> q in start) && (q in inner ==> inner[q] == start[q])
    requires final == inner[quote := fact]
    ensures SingleOutside(final, before)
    ensures OwnersOutside(final, before) == OwnersOutside(start, before) + {fact}
    ensures forall q :: q in before ==>
      (q in final <==> q in start) && (q in final ==> final[q] == start[q])
  {
    forall q | q in final && q !in before && q != quote
      ensures final[q] in OwnersOutside(start, before) && final[q] != fact
    {
      if q !in entered {
        assert inner[q] in OwnersOutside(inner, entered);
      }
    }
    forall p, q | p in final && q in final && p !in before && q !in before && p != q
      ensures final[p] != final[q]
    {
      if p != quote && q != quote && (p in entered) != (q in entered) {
        var visited, other := if p in entered then p else q, if p in entered then q else p;
        assert inner[other] in OwnersOutside(inner, entered);
      }
    }
    forall g | g in OwnersOutside(start, before) ensures g in OwnersOutside(final, before) {
      var q :| q in start && q !in before && start[q] == g;
      if q == quote || q !in entered {
        assert g in OwnersOutside(inner, entered);
        var r :| r in inner && r !in entered && inner[r] == g;
        assert final[r] == g;
      } else {
        assert final[q] == g;
      }
    }
    assert final[quote] == fact;
  }

  // ----- counting -----

  lemma {:induction false} SizeOfSubset<T>(small: set<T>, large: set<T>)
    requires small <= large
    ensures |small| <= |large|
  {
    assert large == small + (large - small);
  }

  lemma {:induction false} VisitedAreQuotes(seen: set<nat>, count: nat)
    requires forall q :: q in seen ==> q < count
    ensures |seen| <= count
  {
    if count == 0 {
      assert seen == {};
    } else {
      VisitedAreQuotes(seen - {count - 1}, count - 1);
      SizeOfSubset(seen, (seen - {count - 1}) + {count - 1});
    }
  }

  /** A relation that gives every member of `from` a partner in `to`, no partner twice. */
  lemma {:induction false} InjectionBoundsSize(from: set<nat>, to: set<nat>, partner: map<nat, nat>)
    requires forall x :: x in from ==> x in partner && partner[x] in to
    requires forall x, y :: x in from && y in from && x != y ==> partner[x] != partner[y]
    ensures |from| <= |to|
    decreases from
  {
    if from != {} {
      var x :| x in from;
      InjectionBoundsSize(from - {x}, to - {partner[x]}, partner);
    }
  }

  /** Facts with too few fitting quotes cannot all be paired. */
  lemma {:induction false} ViolatorForbidsPairing(sources: seq<SourceTexts>, quotes: seq<string>, facts: set<nat>)
    requires HallViolator(sources, quotes, facts)
    ensures !Pairable(sources, quotes)
  {
    if Pairable(sources, quotes) {
      var picks: seq<nat> :| IsPairing(sources, quotes, picks);
      var partner := map f | f in facts :: picks[f];
      InjectionBoundsSize(facts, FittingQuotes(sources, quotes, facts), partner);
    }
  }

  /** When the search fails for `fact`, it and the owners of the visited quotes violate Hall. */
  lemma {:induction false} FailedSearchViolates(
      sources: seq<SourceTexts>, quotes: seq<string>, fits: seq<seq<nat>>,
      owner: map<nat, nat>, seen: set<nat>, fact: nat)
    requires FitsTable(sources, quotes, fits) && fact < |fits|
    requires SingleOutside(owner, {}) && fact !in OwnersOutside(owner, {})
    requires Exhausted(fits, owner, {}, seen) && forall q :: q in fits[fact] ==> q in seen
    ensures exists facts :: HallViolator(sources, quotes, facts)
  {
    var owners := set q | q in seen :: owner[q];
    var stuck := owners + {fact};
    assert fact !in owners by {
      assert forall q :: q in seen ==> owner[q] in OwnersOutside(owner, {});
    }
    assert |seen| <= |owners| by {
      InjectionBoundsSize(seen, owners, owner);
    }
    assert FittingQuotes(sources, quotes, stuck) <= seen;
    SizeOfSubset(FittingQuotes(sources, quotes, stuck), seen);
    assert HallViolator(sources, quotes, stuck);
  }

  /** A complete owner map is a pairing read the other way round. */
  lemma {:induction false} OwnersMakePairing(
      sources: seq<SourceTexts>, quotes: seq<string>, fits: seq<seq<nat>>, owner: map<nat, nat>)
    requires FitsTable(sources, quotes, fits) && FittingOwners(fits, owner)
    requires SingleOutside(owner, {})
    requires forall f: nat :: f < |sources| ==> f in OwnersOutside(owner, {})
    ensures Pairable(sources, quotes)
  {
    var picks: seq<nat> := [];
    for f := 0 to |sources|
      invariant |picks| == f
      invariant forall i :: 0 <= i < f ==> picks[i] in owner && owner[picks[i]] == i
    {
      assert f in OwnersOutside(owner, {});
      var q :| q in owner && owner[q] == f;
      picks := picks + [q];
    }
    PicksArePairing(sources, quotes, fits, owner, picks);
  }

  lemma {:induction false} PicksArePairing(
      sources: seq<SourceTexts>, quotes: seq<string>, fits: seq<seq<nat>>, owner: map<nat, nat>, picks: seq<nat>)
    requires FitsTable(sources, quotes, fits) && FittingOwners(fits, owner)
    requires |picks| == |sources|
    requires forall f :: 0 <= f < |picks| ==> picks[f] in owner && owner[picks[f]] == f
    ensures IsPairing(sources, quotes, picks)
  {
    forall f | 0 <= f < |picks|
      ensures picks[f] < |quotes| && Quotable(sources[f], quotes[picks[f]])
    {
      assert picks[f] in fits[f];
    }
    forall i, j | 0 <= i < j < |picks|
      ensures picks[i] != picks[j]
    {
      assert owner[picks[i]] != owner[picks[j]];
    }
  }

  function FittingIndices(texts: SourceTexts, quotes: seq<string>): (indices: seq<nat>)
    ensures forall q: nat :: q in indices <==> q < |quotes| && Quotable(texts, quotes[q])
  {
    if quotes == [] then []
    else
      var last := |quotes| - 1;
      FittingIndices(texts, quotes[..last]) + if Quotable(texts, quotes[last]) then [last] else []
  }

  /** Whether every linked fact takes its own verbatim quote, in whatever order: exactly
      when some pairing exists, and exactly when no set of facts is short of quotes. */
  method QuotesPairWithFacts(sources: seq<SourceTexts>, quotes: seq<string>) returns (ok: bool)
    ensures ok <==> Pairable(sources, quotes)
    ensures ok <==> !exists facts :: HallViolator(sources, quotes, facts)
  {
    var fits := seq(|sources|, f requires 0 <= f < |sources| => FittingIndices(sources[f], quotes));
    var search := new PairingSearch(fits, |quotes|);
    for fact := 0 to |sources|
      invariant fresh(search) && search.fits == fits && search.quoteCount == |quotes| && search.Valid()
      invariant SingleOutside(search.owner, {})
      invariant forall f: nat :: f in OwnersOutside(search.owner, {}) <==> f < fact
    {
      search.seen := {};
      var served := search.Assign(fact);
      if !served {
        FailedSearchViolates(sources, quotes, fits, search.owner, search.seen, fact);
        var facts :| HallViolator(sources, quotes, facts);
        ViolatorForbidsPairing(sources, quotes, facts);
        return false;
      }
    }
    OwnersMakePairing(sources, quotes, fits, search.owner);
    if facts :| HallViolator(sources, quotes, facts) {
      ViolatorForbidsPairing(sources, quotes, facts);
    }
    return true;
  }
}
