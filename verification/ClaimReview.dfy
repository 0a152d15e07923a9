/** The deterministic check a semantic review must pass (domain/claim_review.py). */
module ClaimReview {
  import opened Contracts
  import opened EvidencePairing
  import opened Sequences

  datatype ProblemCode =
    | InvalidEvidence
    | IncompleteCoverage
    | InvalidClaimQuote
    | InvalidSourceQuote
    | StaleSource
    | FactCoverageMismatch
    | UnsupportedNumber

  /** What is foreign to this model: case folding, and the numbers a text states. */
  datatype TextReader = TextReader(alphanumeric: string -> string, numbers: string -> set<string>)

  function Quoted(assertions: seq<Assertion>): string {
    if assertions == [] then "" else assertions[0].claimQuote + Quoted(assertions[1..])
  }

  predicate Resolves(facts: FactStore, factId: string, language: Language) {
    GetCanonical(facts, factId).Ok? && Rendering(facts, factId, language).Ok?
  }

  function TextsOf(facts: FactStore, factId: string, language: Language): SourceTexts
    requires Resolves(facts, factId, language)
  {
    SourceTexts(facts[factId].meaning, Rendering(facts, factId, language).value)
  }

  predicate AllResolve(facts: FactStore, factIds: seq<string>, language: Language) {
    forall id :: id in factIds ==> Resolves(facts, id, language)
  }

  /** The meaning and the wording of each fact, in turn. */
  function FactTexts(facts: FactStore, factIds: seq<string>, language: Language): seq<string>
    requires Readable(facts, factIds, language)
  {
    seq(2 * |factIds|, k requires 0 <= k < 2 * |factIds| =>
      assert factIds[k / 2] in factIds;
      if k % 2 == 0 then facts[factIds[k / 2]].meaning else facts[factIds[k / 2]].renderings[language])
  }

  /** Every fact is canonical and has a wording in the language. */
  predicate Readable(facts: FactStore, factIds: seq<string>, language: Language) {
    forall id :: id in factIds ==> CanBeSaid(facts, id, language)
  }

  /** The quote is found, word for word, in what the fact means or in its wording. */
  predicate Verbatim(quote: string, fact: Fact, language: Language) {
    Contains(fact.meaning, quote) || (language in fact.renderings && Contains(fact.renderings[language], quote))
  }

  /** The assertion's facts that the claim itself links. */
  function Linked(cited: seq<string>, factIds: seq<string>): (linked: seq<string>)
    ensures forall id :: id in linked <==> id in cited && id in factIds
  {
    if cited == [] then []
    else (if cited[0] in factIds then [cited[0]] else []) + Linked(cited[1..], factIds)
  }

  /** A fact cited twice asks for two quotes. */
  lemma {:induction false} LinkedAsOftenAsCited(cited: seq<string>, factIds: seq<string>, id: string)
    requires id in factIds
    ensures multiset(Linked(cited, factIds))[id] == multiset(cited)[id]
  {
    if cited != [] {
      LinkedAsOftenAsCited(cited[1..], factIds, id);
      assert cited == [cited[0]] + cited[1..];
    }
  }

  function Sources(facts: FactStore, linked: seq<string>, language: Language): seq<SourceTexts>
    requires AllResolve(facts, linked, language)
  {
    seq(|linked|, i requires 0 <= i < |linked| => TextsOf(facts, linked[i], language))
  }

  lemma {:induction false} QuotedGrows(assertions: seq<Assertion>, last: Assertion)
    ensures Quoted(assertions + [last]) == Quoted(assertions) + last.claimQuote
  {
    if assertions == [] {
      assert Quoted([last]) == last.claimQuote + Quoted([]);
    } else {
      QuotedGrows(assertions[1..], last);
      assert (assertions + [last])[1..] == assertions[1..] + [last];
    }
  }

  /** The claim quotes, one after the other. */
  method CoveredText(assertions: seq<Assertion>) returns (covered: string)
    ensures covered == Quoted(assertions)
  {
    covered := "";
    for i := 0 to |assertions|
      invariant covered == Quoted(assertions[..i])
    {
      QuotedGrows(assertions[..i], assertions[i]);
      assert assertions[..i + 1] == assertions[..i] + [assertions[i]];
      covered := covered + assertions[i].claimQuote;
    }
    assert assertions[..|assertions|] == assertions;
  }

  predicate QuotesClaim(claim: Claim, assertion: Assertion) {
    assertion.claimQuote != "" && Contains(claim.text, assertion.claimQuote)
  }

  /** Each of the facts has a quote of its own among `quotes`: the one at `owner`. */
  predicate GivesEach(
      owner: seq<nat>, linked: seq<string>, quotes: seq<string>, facts: FactStore, language: Language)
  {
    && |owner| == |linked|
    && (forall i, j :: 0 <= i < j < |owner| ==> owner[i] != owner[j])
    && forall k :: 0 <= k < |owner| ==>
         owner[k] < |quotes| && linked[k] in facts && Verbatim(quotes[owner[k]], facts[linked[k]], language)
  }

  /** One quote a cited fact, and each cited fact the claim links takes one of its own. */
  ghost predicate QuotesSources(claim: Claim, assertion: Assertion, facts: FactStore, language: Language) {
    && |assertion.factIds| == |assertion.sourceQuotes|
    && exists owner ::
         GivesEach(owner, Linked(assertion.factIds, claim.factIds), assertion.sourceQuotes, facts, language)
  }

  lemma {:induction false} PairingGivesEach(
      picks: seq<nat>, linked: seq<string>, quotes: seq<string>, facts: FactStore, language: Language)
    requires AllResolve(facts, linked, language)
    ensures IsPairing(Sources(facts, linked, language), quotes, picks) <==>
      GivesEach(picks, linked, quotes, facts, language)
  {
    forall k | 0 <= k < |linked|
      ensures linked[k] in facts
      ensures Sources(facts, linked, language)[k].meaning == facts[linked[k]].meaning
      ensures language in facts[linked[k]].renderings
      ensures Sources(facts, linked, language)[k].rendering == facts[linked[k]].renderings[language]
    {
      assert linked[k] in linked;
    }
  }

  lemma {:induction false} PairableExactly(
      linked: seq<string>, quotes: seq<string>, facts: FactStore, language: Language)
    requires AllResolve(facts, linked, language)
    ensures Pairable(Sources(facts, linked, language), quotes) <==>
      exists owner :: GivesEach(owner, linked, quotes, facts, language)
  {
    forall picks: seq<nat>
      ensures IsPairing(Sources(facts, linked, language), quotes, picks) <==>
        GivesEach(picks, linked, quotes, facts, language)
    {
      PairingGivesEach(picks, linked, quotes, facts, language);
    }
  }

  lemma {:induction false} ReadableExactly(facts: FactStore, factIds: seq<string>, language: Language)
    ensures AllResolve(facts, factIds, language) <==> Readable(facts, factIds, language)
  {
  }

  function Cited(assertions: seq<Assertion>): set<string> {
    set a, id | a in assertions && id in a.factIds :: id
  }

  /** The assertions attest the claim: they cover its wording, quote only it, give every
      linked fact a quote of its own, cite exactly its facts, and every number it states
      is stated by them. */
  ghost predicate Attested(
      claim: Claim, assertions: seq<Assertion>, facts: FactStore, language: Language, reader: TextReader)
  {
    && Editable(claim.style) && assertions != []
    && reader.alphanumeric(Quoted(assertions)) == reader.alphanumeric(claim.text)
    && Readable(facts, claim.factIds, language)
    && (forall a :: a in assertions ==> QuotesClaim(claim, a) && QuotesSources(claim, a, facts, language))
    && Cited(assertions) == (set id | id in claim.factIds)
    && reader.numbers(claim.text) <= reader.numbers(SpacedTogether(FactTexts(facts, claim.factIds, language)))
  }

  /** When each problem is reported. Shape and staleness hide the finer ones. */
  ghost predicate Reported(
      code: ProblemCode, claim: Claim, assertions: seq<Assertion>, facts: FactStore, language: Language,
      reader: TextReader)
  {
    var reviewable := Editable(claim.style) && assertions != [];
    var covered := reader.alphanumeric(Quoted(assertions)) == reader.alphanumeric(claim.text);
    var current := Readable(facts, claim.factIds, language);
    var readable := reviewable && covered && current;
    match code
    case InvalidEvidence => !reviewable
    case IncompleteCoverage => reviewable && !covered
    case StaleSource => reviewable && !current
    case InvalidClaimQuote => readable && exists a :: a in assertions && !QuotesClaim(claim, a)
    case InvalidSourceQuote =>
      readable && exists a :: a in assertions && !QuotesSources(claim, a, facts, language)
    case FactCoverageMismatch => readable && Cited(assertions) != set id | id in claim.factIds
    case UnsupportedNumber =>
      readable &&
      !(reader.numbers(claim.text) <= reader.numbers(SpacedTogether(FactTexts(facts, claim.factIds, language))))
  }

  lemma {:induction false} ReadableOneMore(facts: FactStore, ids: seq<string>, id: string, language: Language)
    ensures Readable(facts, ids + [id], language) <==>
      Readable(facts, ids, language) && Resolves(facts, id, language)
  {
    assert Resolves(facts, id, language) <==> CanBeSaid(facts, id, language);
    assert (ids + [id])[|ids|] == id;
    forall other | other in ids
      ensures other in ids + [id]
    {
    }
  }

  /** One finding per linked fact that no longer resolves, and the texts of those that do. */
  method StaleSources(facts: FactStore, factIds: seq<string>, language: Language)
    returns (problems: seq<ProblemCode>, texts: seq<string>)
    ensures problems == [] <==> Readable(facts, factIds, language)
    ensures problems == [] ==> texts == FactTexts(facts, factIds, language)
    ensures forall code :: code in problems ==> code == StaleSource
  {
    problems, texts := [], [];
    for i := 0 to |factIds|
      invariant problems == [] <==> Readable(facts, factIds[..i], language)
      invariant problems == [] ==> texts == FactTexts(facts, factIds[..i], language)
      invariant forall code :: code in problems ==> code == StaleSource
    {
      assert factIds[..i + 1] == factIds[..i] + [factIds[i]];
      ReadableOneMore(facts, factIds[..i], factIds[i], language);
      if Resolves(facts, factIds[i], language) {
        texts := texts + [facts[factIds[i]].meaning, Rendering(facts, factIds[i], language).value];
      } else {
        problems := problems + [StaleSource];
      }
    }
    assert factIds[..|factIds|] == factIds;
  }

  /** The findings about each assertion on its own, and every fact they cite. */
  method AssertionProblems(claim: Claim, assertions: seq<Assertion>, facts: FactStore, language: Language)
    returns (problems: seq<ProblemCode>, cited: set<string>)
    requires Readable(facts, claim.factIds, language)
    ensures cited == Cited(assertions)
    ensures forall code :: code in problems ==> code == InvalidClaimQuote || code == InvalidSourceQuote
    ensures InvalidClaimQuote in problems <==> exists a :: a in assertions && !QuotesClaim(claim, a)
    ensures InvalidSourceQuote in problems <==>
      exists a :: a in assertions && !QuotesSources(claim, a, facts, language)
  {
    ReadableExactly(facts, claim.factIds, language);
    problems, cited := [], {};
    for i := 0 to |assertions|
      invariant cited == Cited(assertions[..i])
      invariant forall code :: code in problems ==> code == InvalidClaimQuote || code == InvalidSourceQuote
      invariant InvalidClaimQuote in problems <==> exists k :: 0 <= k < i && !QuotesClaim(claim, assertions[k])
      invariant InvalidSourceQuote in problems <==>
        exists k :: 0 <= k < i && !QuotesSources(claim, assertions[k], facts, language)
    {
      assert assertions[..i + 1] == assertions[..i] + [assertions[i]];
      cited := cited + set id | id in assertions[i].factIds;
      if assertions[i].claimQuote == "" || !Contains(claim.text, assertions[i].claimQuote) {
        problems := problems + [InvalidClaimQuote];
      }
      if |assertions[i].factIds| != |assertions[i].sourceQuotes| {
        problems := problems + [InvalidSourceQuote];
        continue;
      }
      var linked := Linked(assertions[i].factIds, claim.factIds);
      var paired := QuotesPairWithFacts(Sources(facts, linked, language), assertions[i].sourceQuotes);
      PairableExactly(linked, assertions[i].sourceQuotes, facts, language);
      if !paired {
        problems := problems + [InvalidSourceQuote];
      }
    }
    assert assertions[..|assertions|] == assertions;
  }

  /** The findings, by code: the early return, then the checks of readable evidence. */
  method Findings(
      claim: Claim, assertions: seq<Assertion>, facts: FactStore, language: Language, reader: TextReader)
    returns (problems: seq<ProblemCode>)
    ensures forall code :: code in problems <==> Reported(code, claim, assertions, facts, language, reader)
  {
    if !Editable(claim.style) || assertions == [] {
      return [InvalidEvidence];
    }
    var covered := CoveredText(assertions);
    var uncovered := reader.alphanumeric(covered) != reader.alphanumeric(claim.text);
    problems := if uncovered then [IncompleteCoverage] else [];
    var stale, texts := StaleSources(facts, claim.factIds, language);
    if uncovered || stale != [] {
      assert stale != [] ==> stale[0] in stale;
      return problems + stale;
    }
    problems := CoverageFindings(claim, assertions, facts, language, reader, texts);
  }

  /** The findings of a claim whose quotes cover it and whose sources are current. */
  method CoverageFindings(
      claim: Claim, assertions: seq<Assertion>, facts: FactStore, language: Language, reader: TextReader,
      texts: seq<string>)
    returns (problems: seq<ProblemCode>)
    requires Editable(claim.style) && assertions != []
    requires reader.alphanumeric(Quoted(assertions)) == reader.alphanumeric(claim.text)
    requires Readable(facts, claim.factIds, language) && texts == FactTexts(facts, claim.factIds, language)
    ensures forall code :: code in problems <==> Reported(code, claim, assertions, facts, language, reader)
  {
    var found, cited := AssertionProblems(claim, assertions, facts, language);
    var mismatch := if cited != (set id | id in claim.factIds) then [FactCoverageMismatch] else [];
    var unsupported :=
      if reader.numbers(claim.text) <= reader.numbers(JoinWords(texts)) then [] else [UnsupportedNumber];
    JoinIsSpaced(texts);
    problems := found + mismatch + unsupported;
    FindingsTogether(claim, assertions, facts, language, reader, found, mismatch, unsupported);
  }

  lemma {:induction false} FindingsTogether(
      claim: Claim, assertions: seq<Assertion>, facts: FactStore, language: Language, reader: TextReader,
      found: seq<ProblemCode>, mismatch: seq<ProblemCode>, unsupported: seq<ProblemCode>)
    requires !Reported(InvalidEvidence, claim, assertions, facts, language, reader)
    requires !Reported(IncompleteCoverage, claim, assertions, facts, language, reader)
    requires !Reported(StaleSource, claim, assertions, facts, language, reader)
    requires forall code :: code in found ==> code == InvalidClaimQuote || code == InvalidSourceQuote
    requires forall code :: code in mismatch ==> code == FactCoverageMismatch
    requires forall code :: code in unsupported ==> code == UnsupportedNumber
    requires InvalidClaimQuote in found <==>
      Reported(InvalidClaimQuote, claim, assertions, facts, language, reader)
    requires InvalidSourceQuote in found <==>
      Reported(InvalidSourceQuote, claim, assertions, facts, language, reader)
    requires FactCoverageMismatch in mismatch <==>
      Reported(FactCoverageMismatch, claim, assertions, facts, language, reader)
    requires UnsupportedNumber in unsupported <==>
      Reported(UnsupportedNumber, claim, assertions, facts, language, reader)
    ensures forall code :: code in found + mismatch + unsupported <==>
      Reported(code, claim, assertions, facts, language, reader)
  {
    forall code
      ensures code in found + mismatch + unsupported <==>
        Reported(code, claim, assertions, facts, language, reader)
    {
      match code {
        case InvalidEvidence =>
        case IncompleteCoverage =>
        case InvalidClaimQuote =>
        case InvalidSourceQuote =>
        case StaleSource =>
        case FactCoverageMismatch =>
        case UnsupportedNumber =>
      }
    }
  }

  /** Every reason the assertions fail to attest the claim; none exactly when they attest it. */
  method ReviewProblems(
      claim: Claim, assertions: seq<Assertion>, facts: FactStore, language: Language, reader: TextReader)
    returns (problems: seq<ProblemCode>)
    ensures forall code :: code in problems <==> Reported(code, claim, assertions, facts, language, reader)
    ensures problems == [] <==> Attested(claim, assertions, facts, language, reader)
  {
    problems := Findings(claim, assertions, facts, language, reader);
    UnreportedIsAttested(claim, assertions, facts, language, reader);
    if problems != [] {
      assert problems[0] in problems;
    }
  }

  lemma {:induction false} UnreportedIsAttested(
      claim: Claim, assertions: seq<Assertion>, facts: FactStore, language: Language, reader: TextReader)
    ensures Attested(claim, assertions, facts, language, reader) <==>
      forall code :: !Reported(code, claim, assertions, facts, language, reader)
  {
    if forall code :: !Reported(code, claim, assertions, facts, language, reader) {
      assert !Reported(InvalidEvidence, claim, assertions, facts, language, reader);
      assert !Reported(IncompleteCoverage, claim, assertions, facts, language, reader);
      assert !Reported(StaleSource, claim, assertions, facts, language, reader);
      assert !Reported(InvalidClaimQuote, claim, assertions, facts, language, reader);
      assert !Reported(InvalidSourceQuote, claim, assertions, facts, language, reader);
      assert !Reported(FactCoverageMismatch, claim, assertions, facts, language, reader);
      assert !Reported(UnsupportedNumber, claim, assertions, facts, language, reader);
    }
  }

  /** What attestation is for: every fact the claim links is quoted word for word. */
  lemma {:induction false} AttestedFactsAreQuoted(
      claim: Claim, assertions: seq<Assertion>, facts: FactStore, language: Language, reader: TextReader,
      factId: string)
    requires Attested(claim, assertions, facts, language, reader)
    requires factId in claim.factIds
    ensures exists a, q ::
      a in assertions && q in a.sourceQuotes && factId in facts && Verbatim(q, facts[factId], language)
  {
    assert factId in Cited(assertions);
    var a :| a in assertions && factId in a.factIds;
    assert QuotesSources(claim, a, facts, language);
    var linked := Linked(a.factIds, claim.factIds);
    var owner :| GivesEach(owner, linked, a.sourceQuotes, facts, language);
    var k :| 0 <= k < |linked| && linked[k] == factId;
    assert a.sourceQuotes[owner[k]] in a.sourceQuotes;
  }
}
