/** Presenting a section's facts, one line a fact or one line a rule (domain/presentations.py). */
module Presentations {
  import opened Wrappers
  import opened Contracts

  datatype Rule = Rule(
    identity: Contract,
    profileId: string,
    section: string,
    emphases: seq<string>,
    factIds: seq<string>,
    style: Style,
    renderings: map<Language, string>)

  datatype PresentedClaim = PresentedClaim(style: Style, text: string, factIds: seq<string>, rule: Option<Contract>)

  datatype PresentationError =
    | DuplicateIdentity
    | StyleMismatch(rule: Contract)
    | UnknownRule(rule: Contract)
    | WrongFacts(rule: Contract)
    | WrongStyle(rule: Contract)
    | NoWording(rule: Contract, language: Language)
    | OutsidePool(rule: Contract)
    | Ambiguous(factId: string)
    | Overlap(rule: Contract)
    | BadFact(error: FactError)

  predicate Distinct(ids: seq<string>) {
    forall i, j :: 0 <= i < j < |ids| ==> ids[i] != ids[j]
  }

  function Members(ids: seq<string>): set<string> {
    set id | id in ids
  }

  // ----- the store -----

  /** What the rule contract itself demands: facts, none twice, and an evidence style. */
  predicate WellFormed(rule: Rule) {
    rule.factIds != [] && Distinct(rule.factIds) && Editable(rule.style)
  }

  predicate MatchesFacts(rule: Rule, facts: FactStore) {
    forall id :: id in rule.factIds ==> GetCanonical(facts, id).Ok? && facts[id].style == rule.style
  }

  predicate DistinctIdentities(rules: seq<Rule>) {
    forall i, j :: 0 <= i < j < |rules| ==> rules[i].identity != rules[j].identity
  }

  /** A rule set the store accepts. */
  predicate Coherent(rules: seq<Rule>, facts: FactStore) {
    && DistinctIdentities(rules)
    && forall rule :: rule in rules ==> WellFormed(rule) && MatchesFacts(rule, facts)
  }

  function FindRule(rules: seq<Rule>, identity: Contract): Option<Rule> {
    if rules == [] then None
    else if rules[0].identity == identity then Some(rules[0])
    else FindRule(rules[1..], identity)
  }

  function RenderRule(rules: seq<Rule>, identity: Contract, factIds: seq<string>, language: Language, style: Style)
    : Result<string, PresentationError>
  {
    match FindRule(rules, identity)
    case None => Err(UnknownRule(identity))
    case Some(rule) =>
      if rule.factIds != factIds then Err(WrongFacts(identity))
      else if rule.style != style then Err(WrongStyle(identity))
      else if language !in rule.renderings then Err(NoWording(identity, language))
      else Ok(rule.renderings[language])
  }

  lemma {:induction false} FindsItself(rules: seq<Rule>, rule: Rule)
    requires DistinctIdentities(rules) && rule in rules
    ensures FindRule(rules, rule.identity) == Some(rule)
  {
    if rules[0] != rule {
      FindsItself(rules[1..], rule);
      var k :| 1 <= k < |rules| && rules[k] == rule;
    }
  }

  // ----- specification of one section -----

  /** What a section is presented with. */
  datatype Request = Request(
    profileId: string, section: string, pool: seq<string>, emphasis: string, language: Language, facts: FactStore,
    rules: seq<Rule>)

  predicate Eligible(rule: Rule, request: Request) {
    && rule.profileId == request.profileId && rule.section == request.section
    && (rule.emphases == [] || request.emphasis in rule.emphases)
  }

  /** The rule's facts are exactly the next ones, in its order. */
  predicate AppliesAt(rule: Rule, factIds: seq<string>, at: nat) {
    at + |rule.factIds| <= |factIds| && factIds[at..at + |rule.factIds|] == rule.factIds
  }

  function RulesAt(rules: seq<Rule>, request: Request, factIds: seq<string>, at: nat): seq<Rule> {
    if rules == [] then []
    else
      var rest := RulesAt(rules[1..], request, factIds, at);
      if Eligible(rules[0], request) && AppliesAt(rules[0], factIds, at) then [rules[0]] + rest else rest
  }

  function PlainLine(request: Request, factId: string): Result<PresentedClaim, PresentationError> {
    match Rendering(request.facts, factId, request.language)
    case Err(e) => Err(BadFact(e))
    case Ok(text) => Ok(PresentedClaim(request.facts[factId].style, text, [factId], None))
  }

  function RuleClaim(request: Request, rule: Rule): Result<PresentedClaim, PresentationError> {
    match RenderRule(request.rules, rule.identity, rule.factIds, request.language, rule.style)
    case Err(e) => Err(e)
    case Ok(text) => Ok(PresentedClaim(rule.style, text, rule.factIds, Some(rule.identity)))
  }

  function NextClaim(request: Request, factIds: seq<string>, at: nat): Result<PresentedClaim, PresentationError>
    requires at < |factIds|
  {
    var candidates := RulesAt(request.rules, request, factIds, at);
    if |candidates| > 1 then Err(Ambiguous(factIds[at]))
    else if |candidates| == 1 then RuleClaim(request, candidates[0])
    else PlainLine(request, factIds[at])
  }

  /** The lines from fact `at` on: each takes the next facts, and the rest follow. */
  function PresentFrom(request: Request, factIds: seq<string>, at: nat)
    : Result<seq<PresentedClaim>, PresentationError>
    decreases |factIds| - at
  {
    if at >= |factIds| then Ok([])
    else
      match NextClaim(request, factIds, at)
      case Err(e) => Err(e)
      case Ok(claim) =>
        if claim.factIds == [] then Err(Ambiguous(factIds[at]))
        else
          match PresentFrom(request, factIds, at + |claim.factIds|)
          case Err(e) => Err(e)
          case Ok(rest) => Ok([claim] + rest)
  }

  /** An eligible rule whose facts are all here but not all in the section's pool. */
  predicate Escapes(rule: Rule, request: Request, factIds: seq<string>) {
    && Eligible(rule, request) && (forall id :: id in rule.factIds ==> id in factIds)
    && exists id :: id in rule.factIds && id !in request.pool
  }

  function FirstEscape(rules: seq<Rule>, request: Request, factIds: seq<string>): Option<Rule> {
    if rules == [] then None
    else if Escapes(rules[0], request, factIds) then Some(rules[0])
    else FirstEscape(rules[1..], request, factIds)
  }

  function PresentSection(request: Request, factIds: seq<string>): Result<seq<PresentedClaim>, PresentationError> {
    match FirstEscape(request.rules, request, factIds)
    case Some(rule) => Err(OutsidePool(rule.identity))
    case None => PresentFrom(request, factIds, 0)
  }

  // ----- the source's loop -----

  function IndexOf(ids: seq<string>, id: string): (at: nat)
    requires id in ids
    ensures at < |ids| && ids[at] == id
  {
    if ids[0] == id then 0 else 1 + IndexOf(ids[1..], id)
  }

  predicate AllIn(some: seq<string>, all: seq<string>) {
    forall id :: id in some ==> id in all
  }

  /** The rule's facts are neighbours in what this document says. */
  predicate Neighbours(rule: Rule, factIds: seq<string>)
    requires rule.factIds != [] && AllIn(rule.factIds, factIds)
  {
    forall k :: 0 <= k < |rule.factIds| ==>
      IndexOf(factIds, rule.factIds[k]) == IndexOf(factIds, rule.factIds[0]) + k
  }

  /** A rule that may be used somewhere in the section. */
  predicate Usable(rule: Rule, request: Request, factIds: seq<string>) {
    rule.factIds != [] && Eligible(rule, request) && AllIn(rule.factIds, factIds) && Neighbours(rule, factIds)
  }

  function Matching(rules: seq<Rule>, request: Request, factIds: seq<string>): seq<Rule> {
    if rules == [] then []
    else
      var rest := Matching(rules[1..], request, factIds);
      if Usable(rules[0], request, factIds) then [rules[0]] + rest else rest
  }

  function StartingWith(rules: seq<Rule>, factId: string): seq<Rule> {
    if rules == [] then []
    else
      var rest := StartingWith(rules[1..], factId);
      if rules[0].factIds != [] && rules[0].factIds[0] == factId then [rules[0]] + rest else rest
  }

  /** What is already said plus what is still to come. */
  function Join(said: seq<PresentedClaim>, rest: Result<seq<PresentedClaim>, PresentationError>)
    : Result<seq<PresentedClaim>, PresentationError>
  {
    match rest
    case Err(e) => Err(e)
    case Ok(claims) => Ok(said + claims)
  }

  /** The line emitted where fact `i` sits, none of whose facts was consumed before. */
  method LineAt(request: Request, factIds: seq<string>, matching: seq<Rule>, consumed: set<string>, i: nat)
    returns (line: Result<PresentedClaim, PresentationError>)
    requires Distinct(factIds) && (forall rule :: rule in request.rules ==> WellFormed(rule)) && i < |factIds|
    requires matching == Matching(request.rules, request, factIds) && consumed == Members(factIds[..i])
    ensures line == NextClaim(request, factIds, i)
    ensures line.Err? ==> !line.error.Overlap?
    ensures line.Ok? ==>
      && line.value.factIds != [] && i + |line.value.factIds| <= |factIds|
      && factIds[i..i + |line.value.factIds|] == line.value.factIds
  {
    var candidates := StartingWith(matching, factIds[i]);
    CandidatesApply(request.rules, request, factIds, i);
    if |candidates| > 1 {
      return Err(Ambiguous(factIds[i]));
    }
    if |candidates| == 1 {
      var rule := candidates[0];
      assert rule in candidates;
      CandidatesComeFromRules(request.rules, request, factIds, i);
      NextFactsAreFresh(factIds, i, |rule.factIds|);
      var overlap := consumed * Members(rule.factIds);
      if overlap != {} {
        return Err(Overlap(rule.identity));
      }
      return RuleClaim(request, rule);
    }
    line := PlainLine(request, factIds[i]);
  }

  /** The next line, and how far it consumes. */
  method NextLine(
      request: Request, factIds: seq<string>, matching: seq<Rule>, consumed: set<string>, i: nat)
    returns (line: Result<PresentedClaim, PresentationError>)
    requires Distinct(factIds) && (forall rule :: rule in request.rules ==> WellFormed(rule)) && i < |factIds|
    requires matching == Matching(request.rules, request, factIds) && consumed == Members(factIds[..i])
    ensures line == NextClaim(request, factIds, i)
    ensures line.Err? ==> !line.error.Overlap?
    ensures line.Ok? ==>
      && line.value.factIds != [] && i + |line.value.factIds| <= |factIds|
      && consumed + Members(line.value.factIds) == Members(factIds[..i + |line.value.factIds|])
  {
    line := LineAt(request, factIds, matching, consumed, i);
    if line.Ok? {
      ConsumeNext(factIds, i, |line.value.factIds|);
    }
  }

  /** `render_section`: skip consumed facts, emit a rule's line or the fact's own.

      On distinct facts it is the plain left-to-right reading, so the refusal for facts
      consumed twice is never reached. */
  method RenderSection(request: Request, factIds: seq<string>)
    returns (result: Result<seq<PresentedClaim>, PresentationError>)
    requires Distinct(factIds) && forall rule :: rule in request.rules ==> WellFormed(rule)
    ensures result == PresentSection(request, factIds)
    ensures result.Err? ==> !result.error.Overlap?
    ensures DistinctIdentities(request.rules) ==> forall lines ::
      result == Ok(lines) <==> NoRuleEscapes(request, factIds) && ReadsAll(lines, request, factIds)
  {
    if DistinctIdentities(request.rules) {
      forall lines
        ensures PresentSection(request, factIds) == Ok(lines) <==>
          NoRuleEscapes(request, factIds) && ReadsAll(lines, request, factIds)
      {
        SectionInTurn(request, factIds, lines);
      }
    }
    var escape := FirstEscape(request.rules, request, factIds);
    if escape.Some? {
      return Err(OutsidePool(escape.value.identity));
    }
    result := RenderLines(request, factIds, Matching(request.rules, request, factIds));
  }

  method RenderLines(request: Request, factIds: seq<string>, matching: seq<Rule>)
    returns (result: Result<seq<PresentedClaim>, PresentationError>)
    requires Distinct(factIds) && forall rule :: rule in request.rules ==> WellFormed(rule)
    requires matching == Matching(request.rules, request, factIds)
    ensures result == PresentFrom(request, factIds, 0)
    ensures result.Err? ==> !result.error.Overlap?
  {
    var consumed: set<string> := {};
    var said: seq<PresentedClaim> := [];
    ghost var at, total := 0, PresentFrom(request, factIds, 0);
    ghost var rest := total;
    JoinNothing(total);
    for i := 0 to |factIds|
      invariant i <= at <= |factIds|
      invariant consumed == Members(factIds[..at])
      invariant rest == PresentFrom(request, factIds, at) && Join(said, rest) == total
    {
      ConsumedIsBehind(factIds, i, at);
      if factIds[i] in consumed {
        continue;
      }
      assert at == i;
      var line := NextLine(request, factIds, matching, consumed, i);
      rest := SayOneMore(request, factIds, i, line, said, total);
      if line.Err? {
        return Err(line.error);
      }
      said := said + [line.value];
      consumed := consumed + Members(line.value.factIds);
      at := i + |line.value.factIds|;
    }
    NothingLeft(request, factIds, said);
    result := Ok(said);
  }

  lemma {:induction false} NothingLeft(request: Request, factIds: seq<string>, said: seq<PresentedClaim>)
    ensures Join(said, PresentFrom(request, factIds, |factIds|)) == Ok(said)
  {
    assert said + [] == said;
  }

  /** What is said after one more line, and what an error says. */
  lemma {:induction false} SayOneMore(
      request: Request, factIds: seq<string>, i: nat, line: Result<PresentedClaim, PresentationError>,
      said: seq<PresentedClaim>, total: Result<seq<PresentedClaim>, PresentationError>)
    returns (rest: Result<seq<PresentedClaim>, PresentationError>)
    requires i < |factIds| && Join(said, PresentFrom(request, factIds, i)) == total
    requires line == NextClaim(request, factIds, i)
    ensures line.Err? ==> total == Err(line.error)
    ensures line.Ok? && line.value.factIds != [] ==>
      rest == PresentFrom(request, factIds, i + |line.value.factIds|) && Join(said + [line.value], rest) == total
  {
    rest := total;
    match line
    case Err(_) =>
    case Ok(claim) =>
      rest := PresentFrom(request, factIds, i + |claim.factIds|);
      JoinExtends(said, claim, rest);
  }

  lemma {:induction false} JoinNothing(rest: Result<seq<PresentedClaim>, PresentationError>)
    ensures Join([], rest) == rest
  {
    match rest
    case Err(_) =>
    case Ok(claims) => assert [] + claims == claims;
  }

  lemma {:induction false} JoinExtends(
      said: seq<PresentedClaim>, claim: PresentedClaim, rest: Result<seq<PresentedClaim>, PresentationError>)
    ensures Join(said + [claim], rest) == Join(said, Join([claim], rest))
  {
    match rest
    case Err(_) =>
    case Ok(claims) => assert (said + [claim]) + claims == said + ([claim] + claims);
  }

  /** Consumed facts form a prefix. */
  lemma {:induction false} ConsumedIsBehind(factIds: seq<string>, i: nat, at: nat)
    requires Distinct(factIds) && i < |factIds| && at <= |factIds|
    ensures factIds[i] in Members(factIds[..at]) <==> i < at
  {
    if factIds[i] in factIds[..at] {
      var k :| 0 <= k < at && factIds[..at][k] == factIds[i];
    }
    assert i < at ==> factIds[..at][i] == factIds[i];
  }

  lemma {:induction false} ConsumeNext(factIds: seq<string>, i: nat, count: nat)
    requires i + count <= |factIds|
    ensures Members(factIds[..i]) + Members(factIds[i..i + count]) == Members(factIds[..i + count])
  {
    assert factIds[..i + count] == factIds[..i] + factIds[i..i + count];
  }

  lemma {:induction false} NextFactsAreFresh(factIds: seq<string>, i: nat, count: nat)
    requires Distinct(factIds) && i + count <= |factIds|
    ensures Members(factIds[..i]) * Members(factIds[i..i + count]) == {}
  {
    forall id | id in factIds[..i] ensures id !in factIds[i..i + count] {
      var a :| 0 <= a < i && factIds[a] == id;
      assert forall b :: i <= b < i + count ==> factIds[b] != id;
    }
  }

  /** A usable rule that starts with this fact is one whose facts are exactly the next ones. */
  lemma {:induction false} UsableApplies(rule: Rule, request: Request, factIds: seq<string>, at: nat)
    requires Distinct(factIds) && at < |factIds| && WellFormed(rule)
    ensures Usable(rule, request, factIds) && rule.factIds[0] == factIds[at] <==>
      Eligible(rule, request) && AppliesAt(rule, factIds, at)
  {
    if Usable(rule, request, factIds) && rule.factIds[0] == factIds[at] {
      var start := IndexOf(factIds, rule.factIds[0]);
      assert start == at;
      var last := |rule.factIds| - 1;
      assert IndexOf(factIds, rule.factIds[last]) == at + last;
      assert factIds[at..at + |rule.factIds|] == rule.factIds;
    }
    if AppliesAt(rule, factIds, at) {
      forall k | 0 <= k < |rule.factIds|
        ensures rule.factIds[k] in factIds && IndexOf(factIds, rule.factIds[k]) == at + k
      {
        assert factIds[at + k] == factIds[at..at + |rule.factIds|][k] == rule.factIds[k];
      }
    }
  }

  lemma {:induction false} CandidatesApply(rules: seq<Rule>, request: Request, factIds: seq<string>, at: nat)
    requires Distinct(factIds) && at < |factIds| && forall rule :: rule in rules ==> WellFormed(rule)
    ensures StartingWith(Matching(rules, request, factIds), factIds[at]) == RulesAt(rules, request, factIds, at)
  {
    if rules != [] {
      UsableApplies(rules[0], request, factIds, at);
      CandidatesApply(rules[1..], request, factIds, at);
      var rest := Matching(rules[1..], request, factIds);
      assert ([rules[0]] + rest)[1..] == rest;
    }
  }

  lemma {:induction false} CandidatesComeFromRules(rules: seq<Rule>, request: Request, factIds: seq<string>, at: nat)
    ensures forall rule :: rule in RulesAt(rules, request, factIds, at) ==>
      rule in rules && AppliesAt(rule, factIds, at) && Eligible(rule, request)
  {
    if rules != [] {
      CandidatesComeFromRules(rules[1..], request, factIds, at);
    }
  }

  // ----- what a presented section is -----

  function PresentedFacts(claims: seq<PresentedClaim>): seq<string> {
    if claims == [] then [] else claims[0].factIds + PresentedFacts(claims[1..])
  }

  /** A line says one fact in its canonical wording, or a rule's facts in the rule's. */
  predicate Says(claim: PresentedClaim, request: Request) {
    match claim.rule
    case None =>
      && |claim.factIds| == 1 && GetCanonical(request.facts, claim.factIds[0]).Ok?
      && Rendering(request.facts, claim.factIds[0], request.language) == Ok(claim.text)
      && claim.style == request.facts[claim.factIds[0]].style
    case Some(identity) =>
      && claim.factIds != []
      && RenderRule(request.rules, identity, claim.factIds, request.language, claim.style) == Ok(claim.text)
  }

  /** Nothing is lost, repeated or reordered: the lines' facts, read in order, are the
      section's facts, and every line says exactly its own. */
  lemma {:induction false} PresentedInOrder(request: Request, factIds: seq<string>, at: nat)
    requires at <= |factIds| && PresentFrom(request, factIds, at).Ok?
    ensures PresentedFacts(PresentFrom(request, factIds, at).value) == factIds[at..]
    ensures forall claim :: claim in PresentFrom(request, factIds, at).value ==> Says(claim, request)
    decreases |factIds| - at
  {
    if at < |factIds| {
      var claim := NextClaim(request, factIds, at).value;
      NextSaysItsFacts(request, factIds, at);
      var next := at + |claim.factIds|;
      PresentedInOrder(request, factIds, next);
      var rest := PresentFrom(request, factIds, next).value;
      assert ([claim] + rest)[1..] == rest;
      assert factIds[at..] == factIds[at..next] + factIds[next..];
    }
  }

  // ----- which rule words what -----

  /** In this section, for this Profile and emphasis, the rule's facts are exactly the next ones. */
  predicate AppliesHere(rule: Rule, request: Request, factIds: seq<string>, at: nat) {
    && rule.profileId == request.profileId && rule.section == request.section
    && (|rule.emphases| > 0 ==> request.emphasis in rule.emphases)
    && at + |rule.factIds| <= |factIds| && factIds[at..at + |rule.factIds|] == rule.factIds
  }

  /** The places, in the rule set, of the rules that apply here. */
  function Applying(request: Request, factIds: seq<string>, at: nat): set<nat> {
    set i: nat | i < |request.rules| && AppliesHere(request.rules[i], request, factIds, at)
  }

  /** The line is this rule's wording of its facts. */
  predicate WordedByRule(line: PresentedClaim, rule: Rule, language: Language) {
    language in rule.renderings &&
    line == PresentedClaim(rule.style, rule.renderings[language], rule.factIds, Some(rule.identity))
  }

  /** The line is the canonical fact's own wording, in its own style. */
  predicate WordedByFact(line: PresentedClaim, id: string, facts: FactStore, language: Language) {
    && CanBeSaid(facts, id, language)
    && line == PresentedClaim(facts[id].style, facts[id].renderings[language], [id], None)
  }

  /** Where one rule applies the line is its wording; where none does, the next fact's own. */
  predicate TakesTurn(line: PresentedClaim, request: Request, factIds: seq<string>, at: nat)
    requires at < |factIds|
  {
    var applying := Applying(request, factIds, at);
    if applying == {} then WordedByFact(line, factIds[at], request.facts, request.language)
    else exists i :: i in applying && applying == {i} && WordedByRule(line, request.rules[i], request.language)
  }

  /** There is such a line. */
  predicate HasTurn(request: Request, factIds: seq<string>, at: nat)
    requires at < |factIds|
  {
    var applying := Applying(request, factIds, at);
    if applying == {} then CanBeSaid(request.facts, factIds[at], request.language)
    else exists i :: i in applying && applying == {i} && request.language in request.rules[i].renderings
  }

  lemma {:induction false} RulesAtCome(rules: seq<Rule>, request: Request, factIds: seq<string>, at: nat)
    ensures RulesAt(rules, request, factIds, at) == [] <==>
      forall i :: 0 <= i < |rules| ==> !AppliesHere(rules[i], request, factIds, at)
    ensures |RulesAt(rules, request, factIds, at)| == 1 ==>
      exists i :: OnlyOne(rules, i, request, factIds, at) && RulesAt(rules, request, factIds, at) == [rules[i]]
  {
    if rules != [] {
      RulesAtCome(rules[1..], request, factIds, at);
      assert forall i :: 0 < i < |rules| ==> rules[i] == rules[1..][i - 1];
      var rest := RulesAt(rules[1..], request, factIds, at);
      if AppliesHere(rules[0], request, factIds, at) && rest == [] {
        assert OnlyOne(rules, 0, request, factIds, at);
      }
      if !AppliesHere(rules[0], request, factIds, at) && |rest| == 1 {
        var i :| OnlyOne(rules[1..], i, request, factIds, at) && rest == [rules[1..][i]];
        assert OnlyOne(rules, i + 1, request, factIds, at);
      }
    }
  }

  /** Rule i applies and no other does. */
  predicate OnlyOne(rules: seq<Rule>, i: int, request: Request, factIds: seq<string>, at: nat) {
    && 0 <= i < |rules| && AppliesHere(rules[i], request, factIds, at)
    && forall j :: 0 <= j < |rules| && j != i ==> !AppliesHere(rules[j], request, factIds, at)
  }

  lemma {:induction false} OneIsListed(rules: seq<Rule>, i: int, request: Request, factIds: seq<string>, at: nat)
    requires OnlyOne(rules, i, request, factIds, at)
    ensures RulesAt(rules, request, factIds, at) == [rules[i]]
  {
    RulesAtCome(rules[1..], request, factIds, at);
    assert forall j :: 0 < j < |rules| ==> rules[j] == rules[1..][j - 1];
    if i > 0 {
      OneIsListed(rules[1..], i - 1, request, factIds, at);
    }
  }

  lemma {:induction false} OnlyOneApplies(request: Request, factIds: seq<string>, at: nat, i: nat)
    ensures OnlyOne(request.rules, i, request, factIds, at) <==> Applying(request, factIds, at) == {i}
  {
    if Applying(request, factIds, at) == {i} {
      assert i in Applying(request, factIds, at);
      forall j | 0 <= j < |request.rules| && j != i
        ensures !AppliesHere(request.rules[j], request, factIds, at)
      {
        assert j !in Applying(request, factIds, at);
      }
    }
  }

  /** The next line is the one whose turn it is, and there is none exactly when there is no turn. */
  lemma {:induction false} NextTakesTurn(request: Request, factIds: seq<string>, at: nat)
    requires at < |factIds| && DistinctIdentities(request.rules)
    ensures NextClaim(request, factIds, at).Ok? <==> HasTurn(request, factIds, at)
    ensures NextClaim(request, factIds, at).Ok? ==>
      TakesTurn(NextClaim(request, factIds, at).value, request, factIds, at)
  {
    var candidates, applying := RulesAt(request.rules, request, factIds, at), Applying(request, factIds, at);
    RulesAtCome(request.rules, request, factIds, at);
    if candidates == [] {
      assert applying == {};
    } else if |candidates| == 1 {
      var i :| OnlyOne(request.rules, i, request, factIds, at) && candidates == [request.rules[i]];
      OnlyOneApplies(request, factIds, at, i);
      NextByRule(request, factIds, at, i);
    } else {
      var some :| 0 <= some < |request.rules| && AppliesHere(request.rules[some], request, factIds, at);
      assert some in applying;
      forall i | i in applying
        ensures applying != {i}
      {
        OnlyOneApplies(request, factIds, at, i);
        if applying == {i} {
          OneIsListed(request.rules, i, request, factIds, at);
        }
      }
    }
  }

  lemma {:induction false} NextByRule(request: Request, factIds: seq<string>, at: nat, i: nat)
    requires at < |factIds| && DistinctIdentities(request.rules) && i < |request.rules|
    requires RulesAt(request.rules, request, factIds, at) == [request.rules[i]]
    requires Applying(request, factIds, at) == {i}
    ensures NextClaim(request, factIds, at).Ok? <==> HasTurn(request, factIds, at)
    ensures NextClaim(request, factIds, at).Ok? ==>
      TakesTurn(NextClaim(request, factIds, at).value, request, factIds, at)
  {
    FindsItself(request.rules, request.rules[i]);
    assert i in Applying(request, factIds, at);
  }

  /** No two lines can have the same turn, so the next claim is a line exactly when it is its turn. */
  lemma {:induction false} TurnIsUnique(request: Request, factIds: seq<string>, at: nat, line: PresentedClaim)
    requires at < |factIds| && DistinctIdentities(request.rules)
    ensures NextClaim(request, factIds, at) == Ok(line) <==> TakesTurn(line, request, factIds, at)
  {
    NextTakesTurn(request, factIds, at);
  }

  /** From fact `at` on the lines read the facts left to right, each in its turn. */
  predicate WordedInTurn(lines: seq<PresentedClaim>, request: Request, factIds: seq<string>, at: nat) {
    forall k :: 0 <= k < |lines| ==> InTurn(lines, k, request, factIds, at)
  }

  /** Line k takes its turn, after all the facts the lines before it say. */
  predicate InTurn(lines: seq<PresentedClaim>, k: nat, request: Request, factIds: seq<string>, at: nat)
    requires k < |lines|
  {
    var reached := at + |PresentedFacts(lines[..k])|;
    reached < |factIds| && TakesTurn(lines[k], request, factIds, reached)
  }

  lemma {:induction false} TurnsSplit(
      line: PresentedClaim, rest: seq<PresentedClaim>, request: Request, factIds: seq<string>, at: nat)
    ensures WordedInTurn([line] + rest, request, factIds, at) <==>
      && at < |factIds| && TakesTurn(line, request, factIds, at)
      && WordedInTurn(rest, request, factIds, at + |line.factIds|)
  {
    var lines, next := [line] + rest, at + |line.factIds|;
    FirstTurn(line, rest, request, factIds, at);
    forall k | 0 < k < |lines|
      ensures InTurn(lines, k, request, factIds, at) <==> InTurn(rest, k - 1, request, factIds, next)
    {
      LaterTurn(line, rest, k - 1, request, factIds, at);
    }
    if WordedInTurn(lines, request, factIds, at) {
      assert InTurn(lines, 0, request, factIds, at);
      forall k | 0 <= k < |rest|
        ensures InTurn(rest, k, request, factIds, next)
      {
        LaterTurn(line, rest, k, request, factIds, at);
        assert InTurn(lines, k + 1, request, factIds, at);
      }
    }
  }

  lemma {:induction false} FirstTurn(
      line: PresentedClaim, rest: seq<PresentedClaim>, request: Request, factIds: seq<string>, at: nat)
    ensures InTurn([line] + rest, 0, request, factIds, at) <==>
      at < |factIds| && TakesTurn(line, request, factIds, at)
  {
    assert ([line] + rest)[..0] == [];
  }

  lemma {:induction false} LaterTurn(
      line: PresentedClaim, rest: seq<PresentedClaim>, k: nat, request: Request, factIds: seq<string>, at: nat)
    requires k < |rest|
    ensures InTurn([line] + rest, k + 1, request, factIds, at) <==>
      InTurn(rest, k, request, factIds, at + |line.factIds|)
  {
    SaidBefore(line, rest, k);
    assert ([line] + rest)[k + 1] == rest[k];
  }

  lemma {:induction false} SaidBefore(line: PresentedClaim, rest: seq<PresentedClaim>, k: nat)
    requires k < |rest|
    ensures |PresentedFacts(([line] + rest)[..k + 1])| == |line.factIds| + |PresentedFacts(rest[..k])|
  {
    assert ([line] + rest)[..k + 1] == [line] + rest[..k];
    assert ([line] + rest[..k])[1..] == rest[..k];
  }

  /** A section's reading is exactly the lines that, each in its turn, say all of its facts;
      where there are none there is no reading. */
  lemma {:induction false} PresentedInTurn(
      request: Request, factIds: seq<string>, at: nat, lines: seq<PresentedClaim>)
    requires at <= |factIds| && DistinctIdentities(request.rules)
    requires forall rule :: rule in request.rules ==> WellFormed(rule)
    ensures PresentFrom(request, factIds, at) == Ok(lines) <==>
      WordedInTurn(lines, request, factIds, at) && at + |PresentedFacts(lines)| == |factIds|
    decreases |lines|
  {
    if lines == [] {
      NeverNothing(request, factIds, at);
    } else {
      var line, rest := lines[0], lines[1..];
      assert lines == [line] + rest;
      TurnsSplit(line, rest, request, factIds, at);
      if at < |factIds| {
        TurnIsUnique(request, factIds, at, line);
        ReadOn(request, factIds, at, line, rest);
        if TakesTurn(line, request, factIds, at) {
          TurnSaysNext(line, request, factIds, at);
          PresentedInTurn(request, factIds, at + |line.factIds|, rest);
        }
      }
    }
  }

  /** No rule for this section whose facts are all said reaches outside the section's pool. */
  predicate NoRuleEscapes(request: Request, factIds: seq<string>) {
    forall rule :: rule in request.rules
                   && rule.profileId == request.profileId && rule.section == request.section
                   && (|rule.emphases| > 0 ==> request.emphasis in rule.emphases)
                   && (forall id :: id in rule.factIds ==> id in factIds) ==>
      forall id :: id in rule.factIds ==> id in request.pool
  }

  /** The lines, each in its turn, say all the facts. */
  predicate ReadsAll(lines: seq<PresentedClaim>, request: Request, factIds: seq<string>) {
    WordedInTurn(lines, request, factIds, 0) && |PresentedFacts(lines)| == |factIds|
  }

  lemma {:induction false} NoEscapeFound(rules: seq<Rule>, request: Request, factIds: seq<string>)
    ensures FirstEscape(rules, request, factIds).None? <==>
      forall rule :: rule in rules ==> !Escapes(rule, request, factIds)
  {
    if rules != [] {
      NoEscapeFound(rules[1..], request, factIds);
      assert rules == [rules[0]] + rules[1..];
    }
  }

  lemma {:induction false} EscapesExactly(request: Request, factIds: seq<string>)
    ensures FirstEscape(request.rules, request, factIds).None? <==> NoRuleEscapes(request, factIds)
  {
    NoEscapeFound(request.rules, request, factIds);
    forall rule | rule in request.rules
      ensures !Escapes(rule, request, factIds) <==>
        (rule.profileId == request.profileId && rule.section == request.section
         && (|rule.emphases| > 0 ==> request.emphasis in rule.emphases)
         && (forall id :: id in rule.factIds ==> id in factIds) ==>
           forall id :: id in rule.factIds ==> id in request.pool)
    {
    }
  }

  lemma {:induction false} SectionInTurn(request: Request, factIds: seq<string>, lines: seq<PresentedClaim>)
    requires DistinctIdentities(request.rules) && forall rule :: rule in request.rules ==> WellFormed(rule)
    ensures PresentSection(request, factIds) == Ok(lines) <==>
      NoRuleEscapes(request, factIds) && ReadsAll(lines, request, factIds)
  {
    EscapesExactly(request, factIds);
    PresentedInTurn(request, factIds, 0, lines);
  }

  lemma {:induction false} NeverNothing(request: Request, factIds: seq<string>, at: nat)
    requires at <= |factIds|
    ensures PresentFrom(request, factIds, at) == Ok([]) <==> at == |factIds|
  {
  }

  lemma {:induction false} ReadOn(
      request: Request, factIds: seq<string>, at: nat, line: PresentedClaim, rest: seq<PresentedClaim>)
    requires at < |factIds|
    ensures PresentFrom(request, factIds, at) == Ok([line] + rest) <==>
      && NextClaim(request, factIds, at) == Ok(line) && line.factIds != []
      && PresentFrom(request, factIds, at + |line.factIds|) == Ok(rest)
  {
    if PresentFrom(request, factIds, at) == Ok([line] + rest) {
      var next := NextClaim(request, factIds, at).value;
      var later := PresentFrom(request, factIds, at + |next.factIds|).value;
      assert ([next] + later)[0] == ([line] + rest)[0];
      assert ([next] + later)[1..] == later && ([line] + rest)[1..] == rest;
    }
  }

  lemma {:induction false} TurnSaysNext(line: PresentedClaim, request: Request, factIds: seq<string>, at: nat)
    requires at < |factIds| && TakesTurn(line, request, factIds, at)
    requires forall rule :: rule in request.rules ==> WellFormed(rule)
    ensures line.factIds != [] && at + |line.factIds| <= |factIds|
  {
    var applying := Applying(request, factIds, at);
    if applying != {} {
      var i :| i in applying && WordedByRule(line, request.rules[i], request.language);
      assert WellFormed(request.rules[i]);
    }
  }

  lemma {:induction false} NextSaysItsFacts(request: Request, factIds: seq<string>, at: nat)
    requires at < |factIds| && NextClaim(request, factIds, at).Ok? &&
      NextClaim(request, factIds, at).value.factIds != []
    ensures var claim := NextClaim(request, factIds, at).value;
            && at + |claim.factIds| <= |factIds| && factIds[at..at + |claim.factIds|] == claim.factIds
            && Says(claim, request)
  {
    CandidatesComeFromRules(request.rules, request, factIds, at);
    var candidates := RulesAt(request.rules, request, factIds, at);
    assert |candidates| == 1 ==> candidates[0] in candidates;
  }
}
