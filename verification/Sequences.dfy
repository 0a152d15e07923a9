/** What several modules need of sequences and of words joined into a text. */
module Sequences {

  lemma {:induction false} Associates<T>(x: seq<T>, y: seq<T>, z: seq<T>)
    ensures (x + y) + z == x + (y + z)
  {
  }

  // ----- words joined by spaces -----

  function JoinWords(words: seq<string>): string {
    if words == [] then ""
    else if |words| == 1 then words[0]
    else words[0] + " " + JoinWords(words[1..])
  }

  /** The texts in order, with one space between two neighbours. */
  function SpacedTogether(texts: seq<string>): string {
    if texts == [] then ""
    else if |texts| == 1 then texts[0]
    else SpacedTogether(texts[..|texts| - 1]) + " " + texts[|texts| - 1]
  }

  lemma {:induction false} SpacedFront(first: string, rest: seq<string>)
    requires rest != []
    ensures SpacedTogether([first] + rest) == first + " " + SpacedTogether(rest)
  {
    var texts := [first] + rest;
    assert texts[..|texts| - 1] == [first] + rest[..|rest| - 1] && texts[|texts| - 1] == rest[|rest| - 1];
    if |rest| > 1 {
      SpacedFront(first, rest[..|rest| - 1]);
    }
  }

  lemma {:induction false} JoinIsSpaced(words: seq<string>)
    ensures JoinWords(words) == SpacedTogether(words)
  {
    if |words| > 1 {
      JoinIsSpaced(words[1..]);
      SpacedFront(words[0], words[1..]);
      assert words == [words[0]] + words[1..];
    }
  }
}
