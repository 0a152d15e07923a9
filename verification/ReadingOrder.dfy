/** The reading-order check of a rendered PDF (domain/render_validation.py). Lines and the
    extracted text come as the tokens `_order_tokens` makes of them. */
module ReadingOrder {
  import opened Wrappers

  type Token = string

  // ----- anchors -----

  function Count(tokens: seq<Token>, token: Token): nat {
    if tokens == [] then 0 else (if tokens[0] == token then 1 else 0) + Count(tokens[1..], token)
  }

  /** The rarest of a line's tokens that the text has, the first of equals. */
  function Anchor(line: seq<Token>, extracted: seq<Token>): Option<Token> {
    if line == [] then None
    else
      var before, last := Anchor(line[..|line| - 1], extracted), line[|line| - 1];
      if last in extracted && (before.None? || Count(extracted, last) < Count(extracted, before.value)) then Some(last)
      else before
  }

  lemma {:induction false} AnchorIsRarest(line: seq<Token>, extracted: seq<Token>)
    ensures Anchor(line, extracted).None? <==> forall t :: t in line ==> t !in extracted
    ensures Anchor(line, extracted).Some? ==>
      && Anchor(line, extracted).value in line && Anchor(line, extracted).value in extracted
      && forall t :: t in line && t in extracted ==>
        Count(extracted, Anchor(line, extracted).value) <= Count(extracted, t)
  {
    if line != [] {
      AnchorIsRarest(line[..|line| - 1], extracted);
      assert line == line[..|line| - 1] + [line[|line| - 1]];
    }
  }

  // ----- what the check means -----

  /** The lines that can be located, by their anchors. */
  function Anchors(lines: seq<seq<Token>>, extracted: seq<Token>): seq<Token> {
    if lines == [] then []
    else
      var rest := Anchors(lines[1..], extracted);
      match Anchor(lines[0], extracted)
      case None => rest
      case Some(token) => [token] + rest
  }

  /** `places` finds each of `tokens` in the text, each after the one before it. */
  ghost predicate Embeds(tokens: seq<Token>, extracted: seq<Token>, places: seq<int>, from: int) {
    && |places| == |tokens| && 0 <= from
    && (forall k :: 0 <= k < |places| ==> from <= places[k] < |extracted| && extracted[places[k]] == tokens[k])
    && (forall i, j :: 0 <= i < j < |places| ==> places[i] < places[j])
  }

  ghost predicate Subsequence(tokens: seq<Token>, extracted: seq<Token>, from: int) {
    exists places :: Embeds(tokens, extracted, places, from)
  }

  // ----- the greedy scan -----

  predicate FirstAt(extracted: seq<Token>, token: Token, from: nat, at: nat) {
    from <= at < |extracted| && extracted[at] == token && forall j :: from <= j < at ==> extracted[j] != token
  }

  function FirstFrom(extracted: seq<Token>, token: Token, from: nat): (at: Option<nat>)
    ensures at.Some? ==> FirstAt(extracted, token, from, at.value)
    ensures at.None? ==> forall j :: from <= j < |extracted| ==> extracted[j] != token
    decreases |extracted| - from
  {
    if from >= |extracted| then None
    else if extracted[from] == token then Some(from)
    else FirstFrom(extracted, token, from + 1)
  }

  /** How far into the text the lines have reached; a late line does not move it. */
  function Reached(lines: seq<seq<Token>>, extracted: seq<Token>): nat {
    if lines == [] then 0
    else
      var before := Reached(lines[..|lines| - 1], extracted);
      match Anchor(lines[|lines| - 1], extracted)
      case None => before
      case Some(token) =>
        match FirstFrom(extracted, token, before)
        case None => before
        case Some(at) => at + 1
  }

  /** A line the text has, but only before the place the lines above it reached. */
  predicate IsLate(lines: seq<seq<Token>>, extracted: seq<Token>, k: nat)
    requires k < |lines|
  {
    match Anchor(lines[k], extracted)
    case None => false
    case Some(token) => FirstFrom(extracted, token, Reached(lines[..k], extracted)).None?
  }

  /** Taking the earliest place loses nothing: what embeds at all embeds after it. */
  lemma {:induction false} EarliestLosesNothing(tokens: seq<Token>, extracted: seq<Token>, from: nat, at: nat)
    requires tokens != [] && FirstAt(extracted, tokens[0], from, at)
    ensures Subsequence(tokens, extracted, from) <==> Subsequence(tokens[1..], extracted, at + 1)
  {
    if Subsequence(tokens, extracted, from) {
      var places :| Embeds(tokens, extracted, places, from);
      assert at <= places[0];
      var rest := places[1..];
      forall k | 0 <= k < |rest|
        ensures at + 1 <= rest[k] < |extracted| && extracted[rest[k]] == tokens[1..][k]
      {
        assert places[0] < places[k + 1];
      }
      assert Embeds(tokens[1..], extracted, rest, at + 1);
    }
    if Subsequence(tokens[1..], extracted, at + 1) {
      var rest :| Embeds(tokens[1..], extracted, rest, at + 1);
      assert Embeds(tokens, extracted, [at] + rest, from);
    }
  }

  lemma {:induction false} NoPlaceNoSubsequence(tokens: seq<Token>, extracted: seq<Token>, from: nat)
    requires tokens != [] && forall j :: from <= j < |extracted| ==> extracted[j] != tokens[0]
    ensures !Subsequence(tokens, extracted, from)
  {
    forall places: seq<int>
      ensures !Embeds(tokens, extracted, places, from)
    {
      if places != [] && from <= places[0] < |extracted| {
        assert extracted[places[0]] != tokens[0];
      }
    }
  }

  /** `positions`: where each token occurs, in order. */
  ghost predicate PositionsOf(positions: map<Token, seq<nat>>, extracted: seq<Token>) {
    && (forall t :: t in positions <==> t in extracted)
    && (forall t :: t in positions ==> |positions[t]| == Count(extracted, t) && PlacesOf(positions[t], extracted, t))
  }

  ghost predicate PlacesOf(places: seq<nat>, extracted: seq<Token>, token: Token) {
    Ascending(places) && forall p :: p in places <==> 0 <= p < |extracted| && extracted[p] == token
  }

  ghost predicate Ascending(places: seq<nat>) {
    forall i, j :: 0 <= i < j < |places| ==> places[i] < places[j]
  }

  lemma {:induction false} CountGrows(tokens: seq<Token>, token: Token, other: Token)
    ensures Count(tokens + [token], other) == Count(tokens, other) + (if token == other then 1 else 0)
  {
    if tokens == [] {
      assert [] + [token] == [token];
    } else {
      CountGrows(tokens[1..], token, other);
      assert (tokens + [token])[1..] == tokens[1..] + [token];
    }
  }

  method IndexPositions(extracted: seq<Token>) returns (positions: map<Token, seq<nat>>)
    ensures PositionsOf(positions, extracted)
  {
    positions := map[];
    for index := 0 to |extracted|
      invariant PositionsOf(positions, extracted[..index])
    {
      var token := extracted[index];
      ghost var longer := extracted[..index + 1];
      assert longer == extracted[..index] + [token];
      var places := if token in positions then positions[token] else [];
      ghost var before := positions;
      positions := positions[token := places + [index]];
      PositionsGrow(before, extracted[..index], token);
      assert positions == Positioned(before, token, index);
    }
    assert extracted[..|extracted|] == extracted;
  }

  function Positioned(positions: map<Token, seq<nat>>, token: Token, index: nat): map<Token, seq<nat>> {
    positions[token := (if token in positions then positions[token] else []) + [index]]
  }

  lemma {:induction false} NoneCounted(tokens: seq<Token>, token: Token)
    requires token !in tokens
    ensures Count(tokens, token) == 0
  {
    if tokens != [] {
      assert tokens[0] in tokens;
      assert forall t :: t in tokens[1..] ==> t in tokens;
      NoneCounted(tokens[1..], token);
    }
  }

  lemma {:induction false} PositionsGrow(positions: map<Token, seq<nat>>, text: seq<Token>, token: Token)
    requires PositionsOf(positions, text)
    ensures PositionsOf(Positioned(positions, token, |text|), text + [token])
  {
    var after := Positioned(positions, token, |text|);
    var longer := text + [token];
    if token !in positions {
      NoneCounted(text, token);
    }
    forall t | t in after
      ensures |after[t]| == Count(longer, t) && PlacesOf(after[t], longer, t)
    {
      CountGrows(text, token, t);
      if t == token {
        PlacesGrow(if t in positions then positions[t] else [], text, t);
      } else {
        PlacesStay(positions[t], text, token, t);
      }
    }
  }

  lemma {:induction false} PlacesGrow(places: seq<nat>, text: seq<Token>, token: Token)
    requires PlacesOf(places, text, token)
    ensures PlacesOf(places + [|text|], text + [token], token)
  {
    assert forall i :: 0 <= i < |places| ==> places[i] in places;
  }

  lemma {:induction false} PlacesStay(places: seq<nat>, text: seq<Token>, token: Token, other: Token)
    requires PlacesOf(places, text, other) && token != other
    ensures PlacesOf(places, text + [token], other)
  {
  }

  /** The next place of an anchor after the line above it. */
  method NextPlace(places: seq<nat>, ghost extracted: seq<Token>, ghost token: Token, from: nat)
    returns (at: Option<nat>)
    requires PlacesOf(places, extracted, token)
    ensures at == FirstFrom(extracted, token, from)
  {
    for k := 0 to |places|
      invariant forall j :: 0 <= j < k ==> places[j] < from
    {
      if places[k] >= from {
        assert places[k] in places;
        return Some(places[k]);
      }
    }
    assert forall p :: p in places ==> p < from;
    forall j | from <= j < |extracted|
      ensures extracted[j] != token
    {
      assert j !in places;
    }
    at := None;
  }

  /** `min(present, key=...)`: the first of the tokens with the fewest places. */
  method PickAnchor(line: seq<Token>, positions: map<Token, seq<nat>>, ghost extracted: seq<Token>)
    returns (anchor: Option<Token>)
    requires PositionsOf(positions, extracted)
    ensures anchor == Anchor(line, extracted)
    ensures anchor.Some? ==> anchor.value in positions
  {
    anchor := None;
    for k := 0 to |line|
      invariant anchor == Anchor(line[..k], extracted)
      invariant anchor.Some? ==> anchor.value in positions
    {
      assert line[..k + 1][..k] == line[..k];
      var token := line[k];
      if token in positions && (anchor.None? || |positions[token]| < |positions[anchor.value]|) {
        anchor := Some(token);
      }
    }
    assert line[..|line|] == line;
  }

  /** One line of the scan: whether the rest embeds is unchanged, or settled for good. */
  lemma {:induction false} ScanStep(lines: seq<seq<Token>>, extracted: seq<Token>, k: nat, next: nat)
    requires k < |lines| && next == Reached(lines[..k], extracted)
    ensures IsLate(lines, extracted, k) ==> !Subsequence(Anchors(lines[k..], extracted), extracted, next)
    ensures !IsLate(lines, extracted, k) ==>
      (Subsequence(Anchors(lines[k..], extracted), extracted, next)
       <==> Subsequence(Anchors(lines[k + 1..], extracted), extracted, Reached(lines[..k + 1], extracted)))
    ensures IsLate(lines, extracted, k) ==> Reached(lines[..k + 1], extracted) == next
  {
    assert lines[k..][1..] == lines[k + 1..] && lines[..k + 1][..k] == lines[..k];
    var tokens := Anchors(lines[k..], extracted);
    match Anchor(lines[k], extracted) {
      case None =>
      case Some(token) =>
        assert tokens[1..] == Anchors(lines[k + 1..], extracted);
        match FirstFrom(extracted, token, next) {
          case None => NoPlaceNoSubsequence(tokens, extracted, next);
          case Some(at) => EarliestLosesNothing(tokens, extracted, next, at);
        }
    }
  }

  /** No line is late exactly when the located lines' anchors read in order in the text. */
  method LinesOutOfOrder(lines: seq<seq<Token>>, extracted: seq<Token>) returns (late: seq<nat>)
    ensures late == [] <==> Subsequence(Anchors(lines, extracted), extracted, 0)
    ensures forall k :: k in late <==> 0 <= k < |lines| && IsLate(lines, extracted, k)
  {
    var positions := IndexPositions(extracted);
    late := [];
    var next: nat := 0;
    for k := 0 to |lines|
      invariant next == Reached(lines[..k], extracted)
      invariant forall j :: j in late <==> 0 <= j < k && IsLate(lines, extracted, j)
      invariant late == [] ==>
        (Subsequence(Anchors(lines, extracted), extracted, 0) <==>
           Subsequence(Anchors(lines[k..], extracted), extracted, next))
      invariant late != [] ==> !Subsequence(Anchors(lines, extracted), extracted, 0)
    {
      ScanStep(lines, extracted, k, next);
      var late', next' := LocateLine(lines[k], positions, extracted, next);
      assert lines[..k + 1][..k] == lines[..k];
      if late' {
        late := late + [k];
      }
      next := next';
    }
    assert Embeds([], extracted, [], next);
  }

  /** Where one line is: its anchor's next place, or late when there is none. */
  method LocateLine(line: seq<Token>, positions: map<Token, seq<nat>>, ghost extracted: seq<Token>, next: nat)
    returns (late: bool, after: nat)
    requires PositionsOf(positions, extracted)
    ensures var anchor := Anchor(line, extracted);
            && (late <==> anchor.Some? && FirstFrom(extracted, anchor.value, next).None?)
            && (after == if anchor.None? || late then next else FirstFrom(extracted, anchor.value, next).value + 1)
  {
    var anchor := PickAnchor(line, positions, extracted);
    if anchor.None? {
      return false, next;
    }
    var at := NextPlace(positions[anchor.value], extracted, anchor.value, next);
    if at.None? {
      return true, next;
    }
    return false, at.value + 1;
  }
}
