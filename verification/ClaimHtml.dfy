/** How one claim becomes HTML (infrastructure/rendering.py). The two patterns it searches
    with are parameters; all that is known of them is that their matches are in order and
    apart. */
module ClaimHtml {
  import opened Wrappers
  import opened Contracts
  import opened Sequences

  type Span = (nat, nat)

  predicate SpansIn(spans: seq<Span>, n: nat) {
    && (forall i :: 0 <= i < |spans| ==> spans[i].0 <= spans[i].1 <= n)
    && (forall i, j :: 0 <= i < j < |spans| ==> spans[i].1 <= spans[j].0)
  }

  /** A search pattern: the spans `finditer` yields. */
  ghost predicate IsMatcher(find: string -> seq<Span>) {
    forall value: string :: SpansIn(find(value), |value|)
  }

  // ----- escaping -----

  function EscapeChar(c: char): string {
    if c == '&' then "&amp;"
    else if c == '<' then "&lt;"
    else if c == '>' then "&gt;"
    else if c == '"' then "&quot;"
    else if c == '\'' then "&#x27;"
    else [c]
  }

  function Escape(value: string): string {
    if value == "" then "" else EscapeChar(value[0]) + Escape(value[1..])
  }

  predicate Begins(value: string, prefix: string) {
    |prefix| <= |value| && value[..|prefix|] == prefix
  }

  /** The character a reference at the front stands for, and the length of the reference. */
  function Reference(value: string): Option<(char, nat)> {
    if Begins(value, "&amp;") then Some(('&', 5))
    else if Begins(value, "&lt;") then Some(('<', 4))
    else if Begins(value, "&gt;") then Some(('>', 4))
    else if Begins(value, "&quot;") then Some(('"', 6))
    else if Begins(value, "&#x27;") then Some(('\'', 6))
    else None
  }

  /** What a browser shows for escaped text. */
  function Unescape(value: string): string {
    if value == "" then ""
    else
      match Reference(value)
      case Some((c, length)) => [c] + Unescape(value[length..])
      case None => [value[0]] + Unescape(value[1..])
  }

  lemma {:induction false} BeginsExactly(prefix: string, rest: string)
    ensures Begins(prefix + rest, prefix) && (prefix + rest)[|prefix|..] == rest
  {
  }

  lemma {:induction false} BeginsNot(value: string, other: string, k: nat)
    requires k < |value| && k < |other| && value[k] != other[k]
    ensures !Begins(value, other)
  {
    assert |other| <= |value| ==> value[..|other|][k] == value[k];
  }

  lemma {:induction false} ReferenceOf(c: char, rest: string)
    ensures Reference(EscapeChar(c) + rest)
         == if c == '&' || c == '<' || c == '>' || c == '"' || c == '\'' then Some((c, |EscapeChar(c)|)) else None
  {
    var html := EscapeChar(c) + rest;
    BeginsExactly(EscapeChar(c), rest);
    if c == '<' {
      BeginsNot(html, "&amp;", 1);
    } else if c == '>' {
      BeginsNot(html, "&amp;", 1);
      BeginsNot(html, "&lt;", 1);
    } else if c == '"' {
      BeginsNot(html, "&amp;", 1);
      BeginsNot(html, "&lt;", 1);
      BeginsNot(html, "&gt;", 1);
    } else if c == '\'' {
      BeginsNot(html, "&amp;", 1);
      BeginsNot(html, "&lt;", 1);
      BeginsNot(html, "&gt;", 1);
      BeginsNot(html, "&quot;", 1);
    } else if c != '&' {
      BeginsNot(html, "&amp;", 0);
      BeginsNot(html, "&lt;", 0);
      BeginsNot(html, "&gt;", 0);
      BeginsNot(html, "&quot;", 0);
      BeginsNot(html, "&#x27;", 0);
    }
  }

  lemma {:induction false} UnescapeChar(c: char, rest: string)
    ensures Unescape(EscapeChar(c) + rest) == [c] + Unescape(rest)
  {
    ReferenceOf(c, rest);
    BeginsExactly(EscapeChar(c), rest);
  }

  lemma {:induction false} EscapingIsUndone(value: string)
    ensures Unescape(Escape(value)) == value
  {
    if value != "" {
      UnescapeChar(value[0], Escape(value[1..]));
      EscapingIsUndone(value[1..]);
    }
  }

  lemma {:induction false} EscapeFront(c: char, rest: string)
    ensures Escape([c] + rest) == EscapeChar(c) + Escape(rest)
  {
    assert ([c] + rest)[1..] == rest;
  }

  lemma {:induction false} EscapeJoins(a: string, b: string)
    ensures Escape(a + b) == Escape(a) + Escape(b)
  {
    if a == "" {
      assert a + b == b;
    } else {
      EscapeJoins(a[1..], b);
      FrontAside(a, b);
      EscapeFrontJoins(a[0], a[1..], b);
    }
  }

  lemma {:induction false} FrontAside(a: string, b: string)
    requires a != ""
    ensures a == [a[0]] + a[1..] && a + b == [a[0]] + (a[1..] + b)
  {
  }

  lemma {:induction false} EscapeFrontJoins(c: char, rest: string, b: string)
    requires Escape(rest + b) == Escape(rest) + Escape(b)
    ensures Escape([c] + (rest + b)) == Escape([c] + rest) + Escape(b)
  {
    EscapeFront(c, rest + b);
    EscapeFront(c, rest);
    Associates(EscapeChar(c), Escape(rest), Escape(b));
  }

  // ----- reading HTML back -----

  datatype Piece = Text(c: char) | Tag(body: string)

  function TagBody(html: string): string {
    if html == "" || html[0] == '>' then "" else [html[0]] + TagBody(html[1..])
  }

  lemma {:induction false} TagBodyIsShorter(html: string)
    ensures |TagBody(html)| <= |html|
  {
    if html != "" && html[0] != '>' {
      TagBodyIsShorter(html[1..]);
    }
  }

  /** A browser's reading: tags from '<' to '>', and everything else as text. */
  function Lex(html: string): seq<Piece>
    decreases |html|
  {
    if html == "" then []
    else if html[0] != '<' then [Text(html[0])] + Lex(html[1..])
    else
      var body := TagBody(html[1..]);
      TagBodyIsShorter(html[1..]);
      [Tag(body)] + (if |body| + 2 <= |html| then Lex(html[|body| + 2..]) else [])
  }

  function Texts(pieces: seq<Piece>): string {
    if pieces == [] then "" else (if pieces[0].Text? then [pieces[0].c] else "") + Texts(pieces[1..])
  }

  /** Follow the tags with a stack of open elements; None once a tag closes another element. */
  function Nest(pieces: seq<Piece>, open: seq<string>): Option<seq<string>> {
    if pieces == [] then Some(open)
    else if pieces[0].Text? then Nest(pieces[1..], open)
    else if Begins(pieces[0].body, "/") then
      if open != [] && NameOf(open[0]) == pieces[0].body[1..] then Nest(pieces[1..], open[1..]) else None
    else Nest(pieces[1..], [pieces[0].body] + open)
  }

  /** An element's name, without its attributes. */
  function NameOf(body: string): string {
    if body == "" || body[0] == ' ' then "" else [body[0]] + NameOf(body[1..])
  }

  function Opened(pieces: seq<Piece>, body: string): nat {
    if pieces == [] then 0 else (if pieces[0] == Tag(body) then 1 else 0) + Opened(pieces[1..], body)
  }

  // ----- fragments that can be put side by side -----

  /** Wherever `html` stands, it reads as `pieces`. */
  ghost predicate ReadsAs(html: string, pieces: seq<Piece>) {
    forall rest: string :: Lex(html + rest) == pieces + Lex(rest)
  }

  ghost predicate Balanced(pieces: seq<Piece>) {
    forall open: seq<string> :: Nest(pieces, open) == Some(open)
  }

  /** A fragment: text `text`, tags closed as they were opened, `strongs` of them `strong`. */
  ghost predicate Shows(pieces: seq<Piece>, html: string, text: string, strongs: nat) {
    ReadsAs(html, pieces) && Balanced(pieces) && Texts(pieces) == text && Opened(pieces, "strong") == strongs
  }

  ghost predicate Fragment(html: string, text: string, strongs: nat) {
    exists pieces :: Shows(pieces, html, text, strongs)
  }

  lemma {:induction false} TextsJoin(a: seq<Piece>, b: seq<Piece>)
    ensures Texts(a + b) == Texts(a) + Texts(b) && Opened(a + b, "strong") == Opened(a, "strong") + Opened(b, "strong")
  {
    if a == [] {
      assert a + b == b;
    } else {
      TextsJoin(a[1..], b);
      assert (a + b)[1..] == a[1..] + b && (a + b)[0] == a[0];
      Associates(if a[0].Text? then [a[0].c] else "", Texts(a[1..]), Texts(b));
    }
  }

  lemma {:induction false} NestJoins(a: seq<Piece>, b: seq<Piece>, open: seq<string>)
    ensures Nest(a + b, open)
         == match Nest(a, open) case None => None case Some(still) => Nest(b, still)
    decreases |a|
  {
    if a == [] {
      assert a + b == b;
    } else {
      assert (a + b)[1..] == a[1..] + b;
      if a[0].Text? {
        NestJoins(a[1..], b, open);
      } else if Begins(a[0].body, "/") {
        if open != [] {
          NestJoins(a[1..], b, open[1..]);
        }
      } else {
        NestJoins(a[1..], b, [a[0].body] + open);
      }
    }
  }

  lemma {:induction false} Join(a: string, b: string, t: string, u: string, m: nat, n: nat)
    requires Fragment(a, t, m) && Fragment(b, u, n)
    ensures Fragment(a + b, t + u, m + n)
  {
    var p :| Shows(p, a, t, m);
    var q :| Shows(q, b, u, n);
    TextsJoin(p, q);
    ReadsJoin(a, b, p, q);
    BalancedJoin(p, q);
    assert Shows(p + q, a + b, t + u, m + n);
  }

  lemma {:induction false} ReadsJoin(a: string, b: string, p: seq<Piece>, q: seq<Piece>)
    requires ReadsAs(a, p) && ReadsAs(b, q)
    ensures ReadsAs(a + b, p + q)
  {
    forall rest: string
      ensures Lex(a + b + rest) == p + q + Lex(rest)
    {
      Associates(a, b, rest);
      assert Lex(a + (b + rest)) == p + Lex(b + rest);
      Associates(p, q, Lex(rest));
    }
  }

  lemma {:induction false} BalancedJoin(p: seq<Piece>, q: seq<Piece>)
    requires Balanced(p) && Balanced(q)
    ensures Balanced(p + q)
  {
    forall open: seq<string>
      ensures Nest(p + q, open) == Some(open)
    {
      NestJoins(p, q, open);
    }
  }

  predicate Tagless(value: string) {
    forall c :: c in value ==> c != '<' && c != '>'
  }

  function TextPieces(value: string): seq<Piece> {
    if value == "" then [] else [Text(value[0])] + TextPieces(value[1..])
  }

  lemma {:induction false} EscapedIsTagless(value: string)
    ensures Tagless(Escape(value))
  {
    if value != "" {
      EscapedIsTagless(value[1..]);
      assert Tagless(EscapeChar(value[0]));
    }
  }

  lemma {:induction false} TaglessReads(value: string, rest: string)
    requires Tagless(value)
    ensures Lex(value + rest) == TextPieces(value) + Lex(rest)
  {
    if value == "" {
      assert value + rest == rest && TextPieces(value) + Lex(rest) == Lex(rest);
    } else {
      var tail := value[1..];
      assert (value + rest)[1..] == tail + rest && (value + rest)[0] == value[0] && value[0] in value;
      assert forall c :: c in tail ==> c in value;
      TaglessReads(tail, rest);
      Associates([Text(value[0])], TextPieces(tail), Lex(rest));
    }
  }

  lemma {:induction false} TextPiecesAreText(value: string, open: seq<string>)
    ensures Texts(TextPieces(value)) == value && Nest(TextPieces(value), open) == Some(open)
    ensures Opened(TextPieces(value), "strong") == 0
  {
    if value != "" {
      TextPiecesAreText(value[1..], open);
      assert TextPieces(value)[1..] == TextPieces(value[1..]);
      assert value == [value[0]] + value[1..];
    }
  }

  lemma {:induction false} EscapedFragment(value: string)
    ensures Fragment(Escape(value), Escape(value), 0)
  {
    var html := Escape(value);
    EscapedIsTagless(value);
    forall rest: string
      ensures Lex(html + rest) == TextPieces(html) + Lex(rest)
    {
      TaglessReads(html, rest);
    }
    forall open: seq<string>
      ensures Nest(TextPieces(html), open) == Some(open)
    {
      TextPiecesAreText(html, open);
    }
    TextPiecesAreText(html, []);
    assert Shows(TextPieces(html), html, html, 0);
  }

  lemma {:induction false} TagBodyReads(body: string, rest: string)
    requires '>' !in body
    ensures TagBody(body + ">" + rest) == body
  {
    if body == "" {
      assert (body + ">" + rest)[0] == '>';
    } else {
      assert (body + ">" + rest)[1..] == body[1..] + ">" + rest;
      assert (body + ">" + rest)[0] == body[0] && body[0] in body;
      TagBodyReads(body[1..], rest);
    }
  }

  lemma {:induction false} TagReads(body: string, rest: string)
    requires '>' !in body
    ensures Lex("<" + body + ">" + rest) == [Tag(body)] + Lex(rest)
  {
    var html := "<" + body + ">" + rest;
    assert html[1..] == body + ">" + rest;
    TagBodyReads(body, rest);
    assert html[|body| + 2..] == rest;
  }

  function Element(body: string, name: string, inner: string): string {
    "<" + body + ">" + inner + "</" + name + ">"
  }

  /** An element around a fragment is a fragment. */
  lemma {:induction false} Wrapped(body: string, name: string, inner: string, t: string, n: nat)
    requires Fragment(inner, t, n) && '>' !in body && '>' !in name && NameOf(body) == name && !Begins(body, "/")
    ensures Fragment(Element(body, name, inner), t, n + (if body == "strong" then 1 else 0))
  {
    var html := Element(body, name, inner);
    var p :| Shows(p, inner, t, n);
    var pieces := [Tag(body)] + p + [Tag("/" + name)];
    forall rest: string
      ensures Lex(html + rest) == pieces + Lex(rest)
    {
      WrappedReads(body, name, inner, p, rest);
    }
    forall open: seq<string>
      ensures Nest(pieces, open) == Some(open)
    {
      WrappedNests(body, name, p, open);
    }
    TextsJoin([Tag(body)] + p, [Tag("/" + name)]);
    TextsJoin([Tag(body)], p);
    assert "/" + name != "strong" by { assert ("/" + name)[0] == '/'; }
    assert Shows(pieces, html, t, n + (if body == "strong" then 1 else 0));
  }

  lemma {:induction false} WrappedReads(body: string, name: string, inner: string, p: seq<Piece>, rest: string)
    requires ReadsAs(inner, p) && '>' !in body && '>' !in name
    ensures Lex(Element(body, name, inner) + rest) == [Tag(body)] + p + [Tag("/" + name)] + Lex(rest)
  {
    var start, close := "<" + body + ">", "<" + ("/" + name) + ">";
    assert "</" + name + ">" == close;
    assert start + inner + close + rest == start + (inner + (close + rest));
    assert Element(body, name, inner) == start + inner + close;
    TagReads(body, inner + (close + rest));
    assert Lex(inner + (close + rest)) == p + Lex(close + rest);
    TagReads("/" + name, rest);
    Associates(p, [Tag("/" + name)], Lex(rest));
    Associates([Tag(body)], p + [Tag("/" + name)], Lex(rest));
    Associates([Tag(body)], p, [Tag("/" + name)]);
  }

  lemma {:induction false} WrappedNests(body: string, name: string, p: seq<Piece>, open: seq<string>)
    requires Balanced(p) && NameOf(body) == name && !Begins(body, "/")
    ensures Nest([Tag(body)] + p + [Tag("/" + name)], open) == Some(open)
  {
    var close := [Tag("/" + name)];
    assert [Tag(body)] + p + close == [Tag(body)] + (p + close);
    assert ([Tag(body)] + (p + close))[1..] == p + close;
    var inside := [body] + open;
    NestJoins(p, close, inside);
    assert Nest(p, inside) == Some(inside);
    assert ("/" + name)[1..] == name && ("/" + name)[..1] == "/";
    assert inside[1..] == open && close[1..] == [];
  }

  // ----- wrapping -----

  function Slice(value: string, start: nat, end: nat): string {
    if start <= end <= |value| then value[start..end] else ""
  }

  function EndOf(spans: seq<Span>, k: nat): nat {
    if 0 < k <= |spans| then spans[k - 1].1 else 0
  }

  /** The text up to the end of its k-th span: spans one way, what lies between another. */
  function Parts(
      value: string, spans: seq<Span>, k: nat, plain: string -> string, wrapped: string -> string): string
  {
    if k == 0 || k > |spans| then ""
    else
      Parts(value, spans, k - 1, plain, wrapped) + plain(Slice(value, EndOf(spans, k - 1), spans[k - 1].0))
      + wrapped(Slice(value, spans[k - 1].0, spans[k - 1].1))
  }

  function Wrap(value: string, spans: seq<Span>, plain: string -> string, wrapped: string -> string): string {
    Parts(value, spans, |spans|, plain, wrapped) + plain(Slice(value, EndOf(spans, |spans|), |value|))
  }

  ghost predicate Additive(shown: string -> string) {
    forall a: string, b: string :: shown(a + b) == shown(a) + shown(b)
  }

  /** Whatever it is given, `render` shows it, with that many `strong` elements. */
  ghost predicate Faithful(render: string -> string, shown: string -> string, strongs: nat) {
    forall v: string :: Fragment(render(v), shown(v), strongs)
  }

  lemma {:induction false} EmptyFragment()
    ensures Fragment("", "", 0)
  {
    forall rest: string
      ensures Lex("" + rest) == [] + Lex(rest)
    {
      assert "" + rest == rest;
    }
    assert Shows([], "", "", 0);
  }

  lemma {:induction false} ShowsSlices(value: string, cursor: nat, start: nat, end: nat, shown: string -> string)
    requires Additive(shown) && cursor <= start <= end <= |value|
    ensures shown(value[..end]) == shown(value[..cursor]) + shown(value[cursor..start]) + shown(value[start..end])
    ensures shown(value) == shown(value[..cursor]) + shown(value[cursor..])
    ensures shown("") == ""
  {
    assert value[..end] == value[..cursor] + value[cursor..start] + value[start..end];
    assert value == value[..cursor] + value[cursor..];
    assert shown("" + "") == shown("") + shown("");
    assert "" + "" == "";
    assert |shown("")| == |shown("")| + |shown("")|;
  }

  /** Wrapping spans keeps the text, and adds one element a span or none. */
  lemma {:induction false} PartsFragment(
      value: string, spans: seq<Span>, k: nat, plain: string -> string, wrapped: string -> string,
      shown: string -> string, one: bool)
    requires Additive(shown) && Faithful(plain, shown, 0) && Faithful(wrapped, shown, if one then 1 else 0)
    requires SpansIn(spans, |value|) && k <= |spans|
    ensures EndOf(spans, k) <= |value|
    ensures Fragment(Parts(value, spans, k, plain, wrapped), shown(value[..EndOf(spans, k)]), if one then k else 0)
  {
    if k == 0 {
      EmptyFragment();
      ShowsSlices(value, 0, 0, 0, shown);
      assert value[..0] == "";
    } else {
      var cursor, start, end := EndOf(spans, k - 1), spans[k - 1].0, spans[k - 1].1;
      var before, inside := value[cursor..start], value[start..end];
      PartsFragment(value, spans, k - 1, plain, wrapped, shown, one);
      assert Fragment(plain(before), shown(before), 0);
      assert Fragment(wrapped(inside), shown(inside), if one then 1 else 0);
      ShowsSlices(value, cursor, start, end, shown);
      var parts, strongs := Parts(value, spans, k - 1, plain, wrapped), if one then k - 1 else 0;
      Join(parts, plain(before), shown(value[..cursor]), shown(before), strongs, 0);
      Join(parts + plain(before), wrapped(inside), shown(value[..cursor]) + shown(before), shown(inside),
           strongs, if one then 1 else 0);
    }
  }

  lemma {:induction false} WrapFragment(
      value: string, spans: seq<Span>, plain: string -> string, wrapped: string -> string,
      shown: string -> string, one: bool)
    requires Additive(shown) && Faithful(plain, shown, 0) && Faithful(wrapped, shown, if one then 1 else 0)
    requires SpansIn(spans, |value|)
    ensures Fragment(Wrap(value, spans, plain, wrapped), shown(value), if one then |spans| else 0)
  {
    var cursor, strongs := EndOf(spans, |spans|), if one then |spans| else 0;
    PartsFragment(value, spans, |spans|, plain, wrapped, shown, one);
    var parts, rest := Parts(value, spans, |spans|, plain, wrapped), value[cursor..];
    assert Slice(value, cursor, |value|) == rest;
    assert Fragment(plain(rest), shown(rest), 0);
    ShowsSlices(value, cursor, cursor, cursor, shown);
    JoinAs(
      Wrap(value, spans, plain, wrapped), shown(value), parts, plain(rest), shown(value[..cursor]), shown(rest),
      strongs);
  }

  lemma {:induction false} JoinAs(html: string, text: string, a: string, b: string, t: string, u: string, strongs: nat)
    requires Fragment(a, t, strongs) && Fragment(b, u, 0) && html == a + b && text == t + u
    ensures Fragment(html, text, strongs)
  {
    Join(a, b, t, u, strongs, 0);
  }

  // ----- direction and emphasis -----

  const BDI := "bdi dir=\"ltr\""

  function Isolated(value: string): string {
    Element(BDI, "bdi", Escape(value))
  }

  function PlainOf(): string -> string {
    v => Escape(v)
  }

  function IsolatedOf(): string -> string {
    v => Isolated(v)
  }

  /** The text as it stands, with left-to-right runs isolated inside a right-to-left line. */
  function BidiHtml(value: string, rtl: bool, runs: string -> seq<Span>): string {
    if rtl then Wrap(value, runs(value), PlainOf(), IsolatedOf()) else Escape(value)
  }

  function BidiOf(rtl: bool, runs: string -> seq<Span>): string -> string {
    v => BidiHtml(v, rtl, runs)
  }

  function StrongOf(rtl: bool, runs: string -> seq<Span>): string -> string {
    v => Element("strong", "strong", BidiHtml(v, rtl, runs))
  }

  lemma {:induction false} EscapeIsAdditive()
    ensures Additive(PlainOf())
  {
    forall a: string, b: string
      ensures PlainOf()(a + b) == PlainOf()(a) + PlainOf()(b)
    {
      EscapeJoins(a, b);
    }
  }

  lemma {:induction false} BdiName()
    ensures NameOf(BDI) == "bdi" && '>' !in BDI && !Begins(BDI, "/") && BDI != "strong" && '>' !in "bdi"
  {
    assert BDI[1..][1..][1..][0] == ' ';
    assert BDI[0] == 'b';
  }

  lemma {:induction false} StrongName()
    ensures NameOf("strong") == "strong" && '>' !in "strong" && !Begins("strong", "/")
  {
    WordIsItsName("strong");
  }

  lemma {:induction false} WordIsItsName(word: string)
    requires ' ' !in word
    ensures NameOf(word) == word
  {
    if word != "" {
      assert word == [word[0]] + word[1..];
      WordIsItsName(word[1..]);
    }
  }

  lemma {:induction false} EscapesFaithfully()
    ensures Faithful(PlainOf(), PlainOf(), 0) && Faithful(IsolatedOf(), PlainOf(), 0)
  {
    forall v: string
      ensures Fragment(PlainOf()(v), PlainOf()(v), 0) && Fragment(IsolatedOf()(v), PlainOf()(v), 0)
    {
      EscapedFragment(v);
      BdiName();
      Wrapped(BDI, "bdi", Escape(v), Escape(v), 0);
    }
  }

  lemma {:induction false} BidiIsFaithful(rtl: bool, runs: string -> seq<Span>)
    requires IsMatcher(runs)
    ensures Faithful(BidiOf(rtl, runs), PlainOf(), 0)
  {
    EscapesFaithfully();
    EscapeIsAdditive();
    forall v: string
      ensures Fragment(BidiOf(rtl, runs)(v), PlainOf()(v), 0)
    {
      if rtl {
        WrapFragment(v, runs(v), PlainOf(), IsolatedOf(), PlainOf(), false);
      }
    }
  }

  lemma {:induction false} StrongElement(inner: string, text: string)
    requires Fragment(inner, text, 0)
    ensures Fragment(Element("strong", "strong", inner), text, 1)
  {
    StrongName();
    Wrapped("strong", "strong", inner, text, 0);
  }

  lemma {:induction false} StrongFragment(v: string, rtl: bool, runs: string -> seq<Span>)
    requires Fragment(BidiOf(rtl, runs)(v), PlainOf()(v), 0)
    ensures Fragment(StrongOf(rtl, runs)(v), PlainOf()(v), 1)
  {
    StrongElement(BidiOf(rtl, runs)(v), PlainOf()(v));
    assert StrongOf(rtl, runs)(v) == Element("strong", "strong", BidiOf(rtl, runs)(v));
  }

  lemma {:induction false} StrongIsFaithful(rtl: bool, runs: string -> seq<Span>)
    requires IsMatcher(runs)
    ensures Faithful(StrongOf(rtl, runs), PlainOf(), 1)
  {
    BidiIsFaithful(rtl, runs);
    forall v: string
      ensures Fragment(StrongOf(rtl, runs)(v), PlainOf()(v), 1)
    {
      StrongFragment(v, rtl, runs);
    }
  }

  /** A whole fragment read back: exactly the text, every tag closed in order. */
  lemma {:induction false} FragmentReadsBack(html: string, text: string, strongs: nat)
    requires Fragment(html, Escape(text), strongs)
    ensures Unescape(Texts(Lex(html))) == text
    ensures Nest(Lex(html), []) == Some([])
    ensures Opened(Lex(html), "strong") == strongs
  {
    var pieces :| Shows(pieces, html, Escape(text), strongs);
    assert html + "" == html && Lex(html + "") == pieces + Lex("");
    assert pieces + [] == pieces;
    EscapingIsUndone(text);
  }

  lemma {:induction false} BidiReadsBack(text: string, rtl: bool, runs: string -> seq<Span>)
    requires IsMatcher(runs)
    ensures var html := BidiHtml(text, rtl, runs);
            && Unescape(Texts(Lex(html))) == text && Nest(Lex(html), []) == Some([]) && Opened(Lex(html), "strong") == 0
  {
    BidiIsFaithful(rtl, runs);
    assert Fragment(BidiOf(rtl, runs)(text), PlainOf()(text), 0);
    FragmentReadsBack(BidiHtml(text, rtl, runs), text, 0);
  }

  lemma {:induction false} EmphasisReadsBack(text: string, spans: seq<Span>, rtl: bool, runs: string -> seq<Span>)
    requires IsMatcher(runs) && SpansIn(spans, |text|)
    ensures var html := Wrap(text, spans, BidiOf(rtl, runs), StrongOf(rtl, runs));
            && Unescape(Texts(Lex(html))) == text && Nest(Lex(html), []) == Some([])
            && Opened(Lex(html), "strong") == |spans|
  {
    BidiIsFaithful(rtl, runs);
    StrongIsFaithful(rtl, runs);
    EscapeIsAdditive();
    WrapFragment(text, spans, BidiOf(rtl, runs), StrongOf(rtl, runs), PlainOf(), true);
    FragmentReadsBack(Wrap(text, spans, BidiOf(rtl, runs), StrongOf(rtl, runs)), text, |spans|);
  }

  // ----- which spans are emphasized -----

  predicate Separator(c: char) {
    c == ' ' || c == ',' || c == '/' || c == '&'
  }

  /** Two terms read as one when at most two characters part them, all of them punctuation. */
  predicate Merges(value: string, end: nat, start: nat)
    requires end <= start <= |value|
  {
    start - end <= 2 && forall k :: end <= k < start ==> Separator(value[k])
  }

  function Groups(value: string, matches: seq<Span>): (groups: seq<Span>)
    requires SpansIn(matches, |value|)
    ensures matches != [] ==> groups != [] && groups[|groups| - 1].1 == matches[|matches| - 1].1
    ensures groups == [] ==> matches == []
  {
    if matches == [] then []
    else
      var before, last := Groups(value, matches[..|matches| - 1]), matches[|matches| - 1];
      if before != [] && Merges(value, before[|before| - 1].1, last.0)
      then before[..|before| - 1] + [(before[|before| - 1].0, last.1)]
      else before + [last]
  }

  predicate Within(at: int, span: Span) {
    span.0 <= at < span.1
  }

  ghost predicate InSome(at: int, spans: seq<Span>) {
    exists k :: 0 <= k < |spans| && Within(at, spans[k])
  }

  ghost predicate Apart(value: string, groups: seq<Span>)
    requires SpansIn(groups, |value|)
  {
    forall i :: 0 < i < |groups| ==> !Merges(value, groups[i - 1].1, groups[i].0)
  }

  lemma {:induction false} AppendedApart(value: string, before: seq<Span>, last: Span)
    requires SpansIn(before, |value|) && Apart(value, before) && last.0 <= last.1 <= |value|
    requires before != [] ==> before[|before| - 1].1 <= last.0
    ensures SpansIn(before + [last], |value|)
    ensures before == [] || !Merges(value, before[|before| - 1].1, last.0) ==> Apart(value, before + [last])
  {
    var groups := before + [last];
    forall i | 0 < i < |groups| && (before == [] || !Merges(value, before[|before| - 1].1, last.0))
      ensures !Merges(value, groups[i - 1].1, groups[i].0)
    {
      if i < |before| {
        assert !Merges(value, before[i - 1].1, before[i].0);
      }
    }
  }

  lemma {:induction false} StretchedApart(value: string, before: seq<Span>, end: nat)
    requires before != [] && SpansIn(before, |value|) && Apart(value, before) &&
      before[|before| - 1].1 <= end <= |value|
    ensures var groups := before[..|before| - 1] + [(before[|before| - 1].0, end)];
            SpansIn(groups, |value|) && Apart(value, groups)
  {
    var groups := before[..|before| - 1] + [(before[|before| - 1].0, end)];
    forall i | 0 < i < |groups|
      ensures !Merges(value, groups[i - 1].1, groups[i].0)
    {
      assert !Merges(value, before[i - 1].1, before[i].0);
    }
  }

  /** The groups are in order and apart, and no two neighbours should have been one. */
  lemma {:induction false} GroupsAreApart(value: string, matches: seq<Span>)
    requires SpansIn(matches, |value|)
    ensures SpansIn(Groups(value, matches), |value|) && Apart(value, Groups(value, matches))
  {
    if matches != [] {
      var shorter, last := matches[..|matches| - 1], matches[|matches| - 1];
      var before := Groups(value, shorter);
      GroupsAreApart(value, shorter);
      if before != [] {
        assert shorter[|shorter| - 1] == matches[|matches| - 2];
        StretchedApart(value, before, last.1);
      }
      AppendedApart(value, before, last);
    }
  }

  /** A character is in a group exactly when it is matched, or is a separator between two
      matches that merged; every matched character is in one. */
  lemma {:induction false} GroupsCoverMatches(value: string, matches: seq<Span>, at: nat)
    requires SpansIn(matches, |value|) && at < |value|
    ensures InSome(at, matches) ==> InSome(at, Groups(value, matches))
    ensures InSome(at, Groups(value, matches)) ==> InSome(at, matches) || Separator(value[at])
  {
    if matches != [] {
      var shorter, last := matches[..|matches| - 1], matches[|matches| - 1];
      GroupsAreApart(value, shorter);
      GroupsCoverMatches(value, shorter, at);
      MatchSplits(matches, at);
      GroupGrows(value, Groups(value, shorter), last, at);
    }
  }

  lemma {:induction false} MatchSplits(matches: seq<Span>, at: int)
    requires matches != []
    ensures InSome(at, matches) <==> InSome(at, matches[..|matches| - 1]) || Within(at, matches[|matches| - 1])
  {
    var shorter := matches[..|matches| - 1];
    if InSome(at, shorter) {
      var k :| 0 <= k < |shorter| && Within(at, shorter[k]);
      assert Within(at, matches[k]);
    }
    if InSome(at, matches) {
      var k :| 0 <= k < |matches| && Within(at, matches[k]);
      assert k < |shorter| ==> Within(at, shorter[k]);
    }
  }

  lemma {:induction false} GroupGrows(value: string, before: seq<Span>, last: Span, at: int)
    requires SpansIn(before, |value|) && last.0 <= last.1 <= |value| && 0 <= at < |value|
    requires before != [] ==> before[|before| - 1].1 <= last.0
    ensures var groups :=
              if before != [] && Merges(value, before[|before| - 1].1, last.0)
              then before[..|before| - 1] + [(before[|before| - 1].0, last.1)] else before + [last];
            && (InSome(at, groups) ==> InSome(at, before) || Within(at, last) || Separator(value[at]))
            && (InSome(at, before) || Within(at, last) ==> InSome(at, groups))
  {
    if before != [] && Merges(value, before[|before| - 1].1, last.0) {
      var tail := before[|before| - 1];
      var groups := before[..|before| - 1] + [(tail.0, last.1)];
      MatchSplits(before, at);
      MatchSplits(groups, at);
      assert groups[..|groups| - 1] == before[..|before| - 1];
    } else {
      var groups := before + [last];
      MatchSplits(groups, at);
      assert groups[..|groups| - 1] == before;
    }
  }

  method MergeMatches(value: string, matches: seq<Span>) returns (groups: seq<Span>)
    requires SpansIn(matches, |value|)
    ensures groups == Groups(value, matches)
  {
    groups := [];
    for k := 0 to |matches|
      invariant groups == Groups(value, matches[..k])
    {
      assert matches[..k + 1][..k] == matches[..k];
      var (start, end) := matches[k];
      ghost var before := groups;
      if groups != [] && start - groups[|groups| - 1].1 <= 2
         && forall at | groups[|groups| - 1].1 <= at < start :: value[at] in " ,/&" {
        groups := groups[|groups| - 1 := (groups[|groups| - 1].0, end)];
        assert groups == before[..|before| - 1] + [(before[|before| - 1].0, end)];
      } else {
        groups := groups + [(start, end)];
      }
    }
    assert matches[..|matches|] == matches;
  }

  /** The merged groups of the matches, up to the cap. */
  function FirstGroups(value: string, matches: seq<Span>, maxGroups: nat): seq<Span>
    requires SpansIn(matches, |value|)
  {
    var groups := Groups(value, matches);
    if |groups| <= maxGroups then groups else groups[..maxGroups]
  }

  /** `_emphasis_spans`: merge neighbours, then cap. */
  method EmphasisSpans(value: string, matches: seq<Span>, maxGroups: nat) returns (spans: seq<Span>)
    requires SpansIn(matches, |value|)
    ensures spans == FirstGroups(value, matches, maxGroups)
    ensures SpansIn(spans, |value|) && |spans| <= maxGroups
  {
    var groups := MergeMatches(value, matches);
    GroupsAreApart(value, matches);
    spans := if |groups| <= maxGroups then groups else groups[..maxGroups];
  }

  // ----- what stands inside the emphasis -----

  const STRONG := "strong"

  /** What a reader sees: each character, and whether it stands inside the element in question. */
  type Marked = seq<(char, bool)>

  /** An element is told by the whole of its opening tag, attributes and all. */
  function Shift(body: string, el: string): int {
    if body == el then 1 else if body == "/" + NameOf(el) then -1 else 0
  }

  function Depth(pieces: seq<Piece>, from: int, el: string): int {
    if pieces == [] then from
    else Depth(pieces[1..], if pieces[0].Tag? then from + Shift(pieces[0].body, el) else from, el)
  }

  function Marks(pieces: seq<Piece>, depth: int, el: string): Marked {
    if pieces == [] then []
    else if pieces[0].Text? then [(pieces[0].c, depth > 0)] + Marks(pieces[1..], depth, el)
    else Marks(pieces[1..], depth + Shift(pieces[0].body, el), el)
  }

  function AllMarked(text: string, mark: bool): Marked {
    seq(|text|, k requires 0 <= k < |text| => (text[k], mark))
  }

  lemma {:induction false} MarksJoin(a: seq<Piece>, b: seq<Piece>, depth: int, el: string)
    ensures Depth(a + b, depth, el) == Depth(b, Depth(a, depth, el), el)
    ensures Marks(a + b, depth, el) == Marks(a, depth, el) + Marks(b, Depth(a, depth, el), el)
  {
    if a == [] {
      assert a + b == b;
    } else {
      assert (a + b)[1..] == a[1..] + b && (a + b)[0] == a[0];
      if a[0].Text? {
        MarksJoin(a[1..], b, depth, el);
        Associates([(a[0].c, depth > 0)], Marks(a[1..], depth, el), Marks(b, Depth(a, depth, el), el));
      } else {
        MarksJoin(a[1..], b, depth + Shift(a[0].body, el), el);
      }
    }
  }

  /** The pieces show this text, all of it as they stand: inside the element or outside. */
  ghost predicate Unmarked(pieces: seq<Piece>, text: string, el: string) {
    forall depth: int :: Depth(pieces, depth, el) == depth && Marks(pieces, depth, el) == AllMarked(text, depth > 0)
  }

  /** Wherever it stands, the HTML shows this text without the element around any of it. */
  ghost predicate PlainHtml(html: string, text: string, el: string) {
    exists pieces :: ReadsAs(html, pieces) && Unmarked(pieces, text, el)
  }

  /** Outside the element, the HTML shows these characters so marked. */
  ghost predicate MarkedHtml(html: string, marks: Marked, el: string) {
    exists pieces :: ReadsAs(html, pieces) && Depth(pieces, 0, el) == 0 && Marks(pieces, 0, el) == marks
  }

  lemma {:induction false} MarkedJoin(a: string, b: string)
    ensures forall mark :: AllMarked(a + b, mark) == AllMarked(a, mark) + AllMarked(b, mark)
  {
  }

  lemma {:induction false} UnmarkedJoin(p: seq<Piece>, q: seq<Piece>, t: string, u: string, el: string)
    requires Unmarked(p, t, el) && Unmarked(q, u, el)
    ensures Unmarked(p + q, t + u, el)
  {
    MarkedJoin(t, u);
    forall depth: int
      ensures Depth(p + q, depth, el) == depth && Marks(p + q, depth, el) == AllMarked(t + u, depth > 0)
    {
      MarksJoin(p, q, depth, el);
    }
  }

  lemma {:induction false} PlainJoin(a: string, b: string, t: string, u: string, el: string)
    requires PlainHtml(a, t, el) && PlainHtml(b, u, el)
    ensures PlainHtml(a + b, t + u, el)
  {
    var p :| ReadsAs(a, p) && Unmarked(p, t, el);
    var q :| ReadsAs(b, q) && Unmarked(q, u, el);
    ReadsJoin(a, b, p, q);
    UnmarkedJoin(p, q, t, u, el);
  }

  lemma {:induction false} MarkedHtmlJoin(a: string, b: string, m: Marked, n: Marked, el: string)
    requires MarkedHtml(a, m, el) && MarkedHtml(b, n, el)
    ensures MarkedHtml(a + b, m + n, el)
  {
    var p :| ReadsAs(a, p) && Depth(p, 0, el) == 0 && Marks(p, 0, el) == m;
    var q :| ReadsAs(b, q) && Depth(q, 0, el) == 0 && Marks(q, 0, el) == n;
    ReadsJoin(a, b, p, q);
    MarksJoin(p, q, 0, el);
  }

  lemma {:induction false} PlainIsUnmarked(html: string, text: string, el: string)
    requires PlainHtml(html, text, el)
    ensures MarkedHtml(html, AllMarked(text, false), el)
  {
    var p :| ReadsAs(html, p) && Unmarked(p, text, el);
    assert Depth(p, 0, el) == 0 && Marks(p, 0, el) == AllMarked(text, false);
  }

  lemma {:induction false} TextPiecesMarks(value: string, depth: int, el: string)
    ensures Depth(TextPieces(value), depth, el) == depth
    ensures Marks(TextPieces(value), depth, el) == AllMarked(value, depth > 0)
  {
    if value != "" {
      TextPiecesMarks(value[1..], depth, el);
      assert TextPieces(value)[1..] == TextPieces(value[1..]);
      assert AllMarked(value, depth > 0) == [(value[0], depth > 0)] + AllMarked(value[1..], depth > 0);
    }
  }

  lemma {:induction false} EscapedIsPlain(value: string, el: string)
    ensures PlainHtml(Escape(value), Escape(value), el)
  {
    var html := Escape(value);
    EscapedIsTagless(value);
    forall rest: string
      ensures Lex(html + rest) == TextPieces(html) + Lex(rest)
    {
      TaglessReads(html, rest);
    }
    forall depth: int
      ensures Depth(TextPieces(html), depth, el) == depth
      ensures Marks(TextPieces(html), depth, el) == AllMarked(html, depth > 0)
    {
      TextPiecesMarks(html, depth, el);
    }
    assert Unmarked(TextPieces(html), html, el);
  }

  lemma {:induction false} TagMarks(body: string, depth: int, el: string)
    ensures Depth([Tag(body)], depth, el) == depth + Shift(body, el) && Marks([Tag(body)], depth, el) == []
  {
    assert [Tag(body)][1..] == [];
  }

  /** Around plain HTML: its depth and marks one deeper or as they were, by the tag. */
  lemma {:induction false} AroundMarks(body: string, name: string, p: seq<Piece>, text: string, depth: int, el: string)
    requires Unmarked(p, text, el) && Shift(body, el) + Shift("/" + name, el) == 0
    ensures var pieces := [Tag(body)] + p + [Tag("/" + name)];
      && Depth(pieces, depth, el) == depth
      && Marks(pieces, depth, el) == AllMarked(text, depth + Shift(body, el) > 0)
  {
    var close := [Tag("/" + name)];
    TagMarks(body, depth, el);
    TagMarks("/" + name, depth + Shift(body, el), el);
    MarksJoin([Tag(body)], p, depth, el);
    MarksJoin([Tag(body)] + p, close, depth, el);
    assert [] + AllMarked(text, depth + Shift(body, el) > 0) + [] == AllMarked(text, depth + Shift(body, el) > 0);
  }

  lemma {:induction false} ElementReads(body: string, name: string, inner: string, p: seq<Piece>)
    requires ReadsAs(inner, p) && '>' !in body && '>' !in name
    ensures ReadsAs(Element(body, name, inner), [Tag(body)] + p + [Tag("/" + name)])
  {
    forall rest: string
      ensures Lex(Element(body, name, inner) + rest) == [Tag(body)] + p + [Tag("/" + name)] + Lex(rest)
    {
      WrappedReads(body, name, inner, p, rest);
    }
  }

  lemma {:induction false} IsolatedIsPlain(value: string)
    ensures PlainHtml(Isolated(value), Escape(value), STRONG)
  {
    EscapedIsPlain(value, STRONG);
    BdiName();
    BdiIsNotStrong();
    OtherElement(BDI, "bdi", Escape(value), Escape(value), STRONG);
  }

  lemma {:induction false} BdiIsNotStrong()
    ensures Shift(BDI, STRONG) == 0 && Shift("/" + "bdi", STRONG) == 0
  {
    StrongName();
    assert ("/" + "bdi")[1] == 'b' && ("/" + NameOf(STRONG))[1] == 's' && BDI[0] == 'b' && STRONG[0] == 's';
  }

  /** Another element around plain HTML leaves it plain. */
  lemma {:induction false} OtherElement(body: string, name: string, inner: string, text: string, el: string)
    requires PlainHtml(inner, text, el) && '>' !in body && '>' !in name
    requires Shift(body, el) == 0 && Shift("/" + name, el) == 0
    ensures PlainHtml(Element(body, name, inner), text, el)
  {
    var p :| ReadsAs(inner, p) && Unmarked(p, text, el);
    var pieces := [Tag(body)] + p + [Tag("/" + name)];
    ElementReads(body, name, inner, p);
    forall depth: int
      ensures Depth(pieces, depth, el) == depth && Marks(pieces, depth, el) == AllMarked(text, depth > 0)
    {
      AroundMarks(body, name, p, text, depth, el);
    }
    assert Unmarked(pieces, text, el);
  }

  /** An element around HTML plain of it marks all of its text. */
  lemma {:induction false} ElementMarks(body: string, name: string, inner: string, text: string)
    requires NameOf(body) == name && '>' !in body && '>' !in name && !Begins(body, "/")
    requires PlainHtml(inner, text, body)
    ensures MarkedHtml(Element(body, name, inner), AllMarked(text, true), body)
  {
    var p :| ReadsAs(inner, p) && Unmarked(p, text, body);
    ElementReads(body, name, inner, p);
    assert "/" + name != body;
    AroundMarks(body, name, p, text, 0, body);
  }

  lemma {:induction false} PartsArePlain(value: string, spans: seq<Span>, k: nat)
    requires SpansIn(spans, |value|) && k <= |spans|
    ensures EndOf(spans, k) <= |value|
    ensures PlainHtml(Parts(value, spans, k, PlainOf(), IsolatedOf()), Escape(value[..EndOf(spans, k)]), STRONG)
  {
    if k == 0 {
      EscapedIsPlain("", STRONG);
      assert value[..0] == "";
    } else {
      var cursor, start, end := EndOf(spans, k - 1), spans[k - 1].0, spans[k - 1].1;
      PartsArePlain(value, spans, k - 1);
      var parts := Parts(value, spans, k - 1, PlainOf(), IsolatedOf());
      EscapedIsPlain(value[cursor..start], STRONG);
      IsolatedIsPlain(value[start..end]);
      PlainJoin(parts, Escape(value[cursor..start]), Escape(value[..cursor]), Escape(value[cursor..start]), STRONG);
      PlainJoin(
        parts + Escape(value[cursor..start]), Isolated(value[start..end]),
        Escape(value[..cursor]) + Escape(value[cursor..start]), Escape(value[start..end]), STRONG);
      EscapeIsAdditive();
      ShowsSlices(value, cursor, start, end, PlainOf());
      assert PlainOf()(value[..end]) == Escape(value[..end]);
    }
  }

  lemma {:induction false} BidiIsPlain(value: string, rtl: bool, runs: string -> seq<Span>)
    requires IsMatcher(runs)
    ensures PlainHtml(BidiHtml(value, rtl, runs), Escape(value), STRONG)
  {
    if rtl {
      WrappedRunsArePlain(value, runs(value));
    } else {
      EscapedIsPlain(value, STRONG);
    }
  }

  lemma {:induction false} WrappedRunsArePlain(value: string, spans: seq<Span>)
    requires SpansIn(spans, |value|)
    ensures PlainHtml(Wrap(value, spans, PlainOf(), IsolatedOf()), Escape(value), STRONG)
  {
    var cursor := EndOf(spans, |spans|);
    PartsArePlain(value, spans, |spans|);
    var parts, rest := Parts(value, spans, |spans|, PlainOf(), IsolatedOf()), value[cursor..];
    EscapedIsPlain(rest, STRONG);
    PlainJoin(parts, Escape(rest), Escape(value[..cursor]), Escape(rest), STRONG);
    RunsSplit(value, spans);
    PlainAs(
      Wrap(value, spans, PlainOf(), IsolatedOf()), parts + Escape(rest), Escape(value[..cursor]) + Escape(rest),
      Escape(value), STRONG);
  }

  lemma {:induction false} PlainAs(html: string, same: string, text: string, alike: string, el: string)
    requires PlainHtml(same, text, el) && html == same && text == alike
    ensures PlainHtml(html, alike, el)
  {
  }

  lemma {:induction false} RunsSplit(value: string, spans: seq<Span>)
    requires SpansIn(spans, |value|) && EndOf(spans, |spans|) <= |value|
    ensures var cursor := EndOf(spans, |spans|);
      && Wrap(value, spans, PlainOf(), IsolatedOf()) ==
           Parts(value, spans, |spans|, PlainOf(), IsolatedOf()) + Escape(value[cursor..])
      && Escape(value) == Escape(value[..cursor]) + Escape(value[cursor..])
  {
    var cursor := EndOf(spans, |spans|);
    assert Slice(value, cursor, |value|) == value[cursor..];
    EscapeJoins(value[..cursor], value[cursor..]);
    assert value == value[..cursor] + value[cursor..];
  }

  /** Each character of the text, as it is escaped, marked exactly when it lies in a span. */
  ghost function MarkedBy(value: string, spans: seq<Span>, n: nat): Marked
    requires n <= |value|
  {
    if n == 0 then []
    else MarkedBy(value, spans, n - 1) + AllMarked(EscapeChar(value[n - 1]), InSome(n - 1, spans))
  }

  lemma {:induction false} MarkedStretch(value: string, spans: seq<Span>, from: nat, to: nat, mark: bool)
    requires from <= to <= |value| && forall at :: from <= at < to ==> InSome(at, spans) == mark
    ensures MarkedBy(value, spans, to) == MarkedBy(value, spans, from) + AllMarked(Escape(value[from..to]), mark)
  {
    if from == to {
      assert value[from..to] == "";
    } else {
      MarkedStretch(value, spans, from, to - 1, mark);
      EscapeLast(value, from, to);
      MarkedByNext(value, spans, to, mark);
      StretchOneMore(
        MarkedBy(value, spans, from), Escape(value[from..to - 1]), EscapeChar(value[to - 1]), mark,
        MarkedBy(value, spans, to - 1), MarkedBy(value, spans, to), Escape(value[from..to]));
    }
  }

  lemma {:induction false} MarkedByNext(value: string, spans: seq<Span>, n: nat, mark: bool)
    requires 0 < n <= |value| && InSome(n - 1, spans) == mark
    ensures MarkedBy(value, spans, n) == MarkedBy(value, spans, n - 1) + AllMarked(EscapeChar(value[n - 1]), mark)
  {
  }

  lemma {:induction false} EscapeLast(value: string, from: nat, to: nat)
    requires from < to <= |value|
    ensures Escape(value[from..to]) == Escape(value[from..to - 1]) + EscapeChar(value[to - 1])
  {
    var last := [value[to - 1]];
    assert value[from..to] == value[from..to - 1] + last;
    EscapeJoins(value[from..to - 1], last);
    EscapeOne(value[to - 1]);
  }

  lemma {:induction false} StretchOneMore(
      before: Marked, a: string, b: string, mark: bool, shorter: Marked, longer: Marked, text: string)
    requires shorter == before + AllMarked(a, mark) && longer == shorter + AllMarked(b, mark) && text == a + b
    ensures longer == before + AllMarked(text, mark)
  {
    MarkedJoin(a, b);
    Associates(before, AllMarked(a, mark), AllMarked(b, mark));
  }

  lemma {:induction false} EscapeOne(c: char)
    ensures Escape([c]) == EscapeChar(c)
  {
    assert [c][1..] == "" && EscapeChar(c) + "" == EscapeChar(c);
  }

  /** Between two spans no character is in a span; in one, every character is. */
  lemma {:induction false} SpanStretch(spans: seq<Span>, n: nat, k: nat, at: int)
    requires SpansIn(spans, n) && k <= |spans|
    ensures EndOf(spans, k) <= at < (if k < |spans| then spans[k].0 else n) ==> !InSome(at, spans)
    ensures k < |spans| && spans[k].0 <= at < spans[k].1 ==> InSome(at, spans)
  {
    if k < |spans| && spans[k].0 <= at < spans[k].1 {
      assert Within(at, spans[k]);
    }
  }

  ghost predicate ShowsPlainly(render: string -> string, el: string) {
    forall v: string :: PlainHtml(render(v), Escape(v), el)
  }

  ghost predicate ShowsEmphasized(render: string -> string, el: string) {
    forall v: string :: MarkedHtml(render(v), AllMarked(Escape(v), true), el)
  }

  lemma {:induction false} MarkedAs(html: string, same: string, marks: Marked, alike: Marked, el: string)
    requires MarkedHtml(same, marks, el) && html == same && marks == alike
    ensures MarkedHtml(html, alike, el)
  {
  }

  lemma {:induction false} NothingMarked(el: string)
    ensures MarkedHtml("", [], el)
  {
    EscapedIsPlain("", el);
    PlainIsUnmarked("", "", el);
    assert AllMarked("", false) == [];
  }

  lemma {:induction false} PartsAreMarked(
      value: string, spans: seq<Span>, k: nat, plain: string -> string, wrapped: string -> string, el: string)
    requires ShowsPlainly(plain, el) && ShowsEmphasized(wrapped, el) && SpansIn(spans, |value|) && k <= |spans|
    ensures EndOf(spans, k) <= |value|
    ensures MarkedHtml(Parts(value, spans, k, plain, wrapped), MarkedBy(value, spans, EndOf(spans, k)), el)
  {
    if k == 0 {
      NothingMarked(el);
    } else {
      var cursor, start, end := EndOf(spans, k - 1), spans[k - 1].0, spans[k - 1].1;
      PartsAreMarked(value, spans, k - 1, plain, wrapped, el);
      var parts, before, inside := Parts(value, spans, k - 1, plain, wrapped), value[cursor..start], value[start..end];
      assert PlainHtml(plain(before), Escape(before), el);
      assert MarkedHtml(wrapped(inside), AllMarked(Escape(inside), true), el);
      NextSpanMarks(value, spans, k - 1, parts, plain(before), wrapped(inside), el);
    }
  }

  lemma {:induction false} NextSpanMarks(
      value: string, spans: seq<Span>, k: nat, parts: string, before: string, inside: string, el: string)
    requires SpansIn(spans, |value|) && k < |spans| && EndOf(spans, k) <= |value|
    requires EndOf(spans, k) <= spans[k].0
    requires MarkedHtml(parts, MarkedBy(value, spans, EndOf(spans, k)), el)
    requires PlainHtml(before, Escape(value[EndOf(spans, k)..spans[k].0]), el)
    requires MarkedHtml(inside, AllMarked(Escape(value[spans[k].0..spans[k].1]), true), el)
    ensures MarkedHtml(parts + before + inside, MarkedBy(value, spans, spans[k].1), el)
  {
    var cursor, start, end := EndOf(spans, k), spans[k].0, spans[k].1;
    SpanMarks(value, spans, k);
    PlainIsUnmarked(before, Escape(value[cursor..start]), el);
    MarkedHtmlJoin(
      parts, before, MarkedBy(value, spans, cursor), AllMarked(Escape(value[cursor..start]), false), el);
    MarkedHtmlJoin(
      parts + before, inside, MarkedBy(value, spans, start), AllMarked(Escape(value[start..end]), true), el);
  }

  /** The marks up to a span's start, and up to its end. */
  lemma {:induction false} SpanMarks(value: string, spans: seq<Span>, k: nat)
    requires SpansIn(spans, |value|) && k < |spans| && EndOf(spans, k) <= spans[k].0
    ensures MarkedBy(value, spans, spans[k].0) ==
      MarkedBy(value, spans, EndOf(spans, k)) + AllMarked(Escape(value[EndOf(spans, k)..spans[k].0]), false)
    ensures MarkedBy(value, spans, spans[k].1) ==
      MarkedBy(value, spans, spans[k].0) + AllMarked(Escape(value[spans[k].0..spans[k].1]), true)
  {
    forall at
      ensures EndOf(spans, k) <= at < spans[k].0 ==> !InSome(at, spans)
      ensures spans[k].0 <= at < spans[k].1 ==> InSome(at, spans)
    {
      SpanStretch(spans, |value|, k, at);
    }
    MarkedStretch(value, spans, EndOf(spans, k), spans[k].0, false);
    MarkedStretch(value, spans, spans[k].0, spans[k].1, true);
  }

  lemma {:induction false} WrapMarks(
      value: string, spans: seq<Span>, plain: string -> string, wrapped: string -> string, el: string)
    requires ShowsPlainly(plain, el) && ShowsEmphasized(wrapped, el) && SpansIn(spans, |value|)
    ensures MarkedHtml(Wrap(value, spans, plain, wrapped), MarkedBy(value, spans, |value|), el)
  {
    var cursor := EndOf(spans, |spans|);
    PartsAreMarked(value, spans, |spans|, plain, wrapped, el);
    var parts, rest := Parts(value, spans, |spans|, plain, wrapped), value[cursor..];
    assert Slice(value, cursor, |value|) == rest;
    assert PlainHtml(plain(rest), Escape(rest), el);
    PlainIsUnmarked(plain(rest), Escape(rest), el);
    MarkedHtmlJoin(parts, plain(rest), MarkedBy(value, spans, cursor), AllMarked(Escape(rest), false), el);
    RestUnmarked(value, spans);
    MarkedAs(
      Wrap(value, spans, plain, wrapped), parts + plain(rest),
      MarkedBy(value, spans, cursor) + AllMarked(Escape(rest), false), MarkedBy(value, spans, |value|), el);
  }

  lemma {:induction false} WrapReadsBack(
      value: string, spans: seq<Span>, plain: string -> string, wrapped: string -> string, el: string)
    requires ShowsPlainly(plain, el) && ShowsEmphasized(wrapped, el) && SpansIn(spans, |value|)
    ensures Marks(Lex(Wrap(value, spans, plain, wrapped)), 0, el) == MarkedBy(value, spans, |value|)
  {
    WrapMarks(value, spans, plain, wrapped, el);
    MarkedReadsBack(Wrap(value, spans, plain, wrapped), MarkedBy(value, spans, |value|), el);
  }

  lemma {:induction false} BidiShowsPlainly(rtl: bool, runs: string -> seq<Span>)
    requires IsMatcher(runs)
    ensures ShowsPlainly(BidiOf(rtl, runs), STRONG) && ShowsEmphasized(StrongOf(rtl, runs), STRONG)
  {
    forall v: string
      ensures PlainHtml(BidiOf(rtl, runs)(v), Escape(v), STRONG)
      ensures MarkedHtml(StrongOf(rtl, runs)(v), AllMarked(Escape(v), true), STRONG)
    {
      BidiIsPlain(v, rtl, runs);
      StrongName();
      ElementMarks(STRONG, STRONG, BidiHtml(v, rtl, runs), Escape(v));
    }
  }

  /** Exactly the characters of the spans stand inside `strong` elements. */
  lemma {:induction false} EmphasisMarksSpans(text: string, spans: seq<Span>, rtl: bool, runs: string -> seq<Span>)
    requires IsMatcher(runs) && SpansIn(spans, |text|)
    ensures Marks(Lex(Wrap(text, spans, BidiOf(rtl, runs), StrongOf(rtl, runs))), 0, STRONG)
         == MarkedBy(text, spans, |text|)
  {
    BidiShowsPlainly(rtl, runs);
    WrapReadsBack(text, spans, BidiOf(rtl, runs), StrongOf(rtl, runs), STRONG);
  }

  lemma {:induction false} RestUnmarked(text: string, spans: seq<Span>)
    requires SpansIn(spans, |text|) && EndOf(spans, |spans|) <= |text|
    ensures MarkedBy(text, spans, |text|) ==
      MarkedBy(text, spans, EndOf(spans, |spans|)) + AllMarked(Escape(text[EndOf(spans, |spans|)..]), false)
  {
    var cursor := EndOf(spans, |spans|);
    forall at
      ensures cursor <= at < |text| ==> !InSome(at, spans)
    {
      SpanStretch(spans, |text|, |spans|, at);
    }
    assert text[cursor..|text|] == text[cursor..];
    MarkedStretch(text, spans, cursor, |text|, false);
  }

  lemma {:induction false} MarkedReadsBack(html: string, marks: Marked, el: string)
    requires MarkedHtml(html, marks, el)
    ensures Marks(Lex(html), 0, el) == marks
  {
    var pieces :| ReadsAs(html, pieces) && Depth(pieces, 0, el) == 0 && Marks(pieces, 0, el) == marks;
    assert html + "" == html && Lex(html + "") == pieces + Lex("");
    assert pieces + [] == pieces;
  }

  lemma {:induction false} BidiMarksNothing(text: string, rtl: bool, runs: string -> seq<Span>)
    requires IsMatcher(runs)
    ensures Marks(Lex(BidiHtml(text, rtl, runs)), 0, STRONG) == MarkedBy(text, [], |text|)
  {
    BidiIsPlain(text, rtl, runs);
    PlainMarksNothing(text, BidiHtml(text, rtl, runs), STRONG);
  }

  lemma {:induction false} PlainMarksNothing(text: string, html: string, el: string)
    requires PlainHtml(html, Escape(text), el)
    ensures Marks(Lex(html), 0, el) == MarkedBy(text, [], |text|)
  {
    PlainIsUnmarked(html, Escape(text), el);
    MarkedReadsBack(html, AllMarked(Escape(text), false), el);
    MarkedStretch(text, [], 0, |text|, false);
    assert text[0..|text|] == text;
    assert [] + AllMarked(Escape(text), false) == AllMarked(Escape(text), false);
  }

  lemma {:induction false} IsolatingShowsPlainly()
    ensures ShowsPlainly(PlainOf(), BDI) && ShowsEmphasized(IsolatedOf(), BDI)
  {
    forall v: string
      ensures PlainHtml(PlainOf()(v), Escape(v), BDI)
      ensures MarkedHtml(IsolatedOf()(v), AllMarked(Escape(v), true), BDI)
    {
      BdiName();
      EscapedIsPlain(v, BDI);
      ElementMarks(BDI, "bdi", Escape(v), Escape(v));
    }
  }

  /** In a right-to-left line exactly the runs the pattern finds are isolated, and left-to-right;
      in any other line nothing is. */
  lemma {:induction false} RunsAreIsolated(value: string, rtl: bool, runs: string -> seq<Span>)
    requires IsMatcher(runs)
    ensures Marks(Lex(BidiHtml(value, rtl, runs)), 0, BDI)
         == MarkedBy(value, if rtl then runs(value) else [], |value|)
  {
    IsolatingShowsPlainly();
    if rtl {
      WrapReadsBack(value, runs(value), PlainOf(), IsolatedOf(), BDI);
    } else {
      PlainMarksNothing(value, Escape(value), BDI);
    }
  }

  // ----- one claim -----

  /** `_bidi`. */
  method Bidi(value: string, rtl: bool, runs: string -> seq<Span>) returns (html: string)
    requires IsMatcher(runs)
    ensures html == BidiHtml(value, rtl, runs)
    ensures Marks(Lex(html), 0, BDI) == MarkedBy(value, if rtl then runs(value) else [], |value|)
  {
    RunsAreIsolated(value, rtl, runs);
    if !rtl {
      return Escape(value);
    }
    var spans := runs(value);
    assert SpansIn(spans, |value|);
    html := Assemble(value, spans, PlainOf(), IsolatedOf());
  }

  /** The loop both wrappings share: what lies before a span, the span, and at last the rest. */
  method Assemble(value: string, spans: seq<Span>, plain: string -> string, wrapped: string -> string)
    returns (html: string)
    requires SpansIn(spans, |value|)
    ensures html == Wrap(value, spans, plain, wrapped)
  {
    html := "";
    var cursor := 0;
    for k := 0 to |spans|
      invariant cursor == EndOf(spans, k)
      invariant html == Parts(value, spans, k, plain, wrapped)
    {
      var (start, end) := spans[k];
      html := html + plain(value[cursor..start]) + wrapped(value[start..end]);
      cursor := end;
    }
    html := html + plain(value[cursor..]);
    assert value[cursor..] == Slice(value, cursor, |value|);
  }

  /** A track's emphasis; none configured is None. */
  datatype Emphasis = Emphasis(find: string -> seq<Span>, sections: set<string>, styles: set<Style>, maxGroups: nat)

  predicate Emphasizes(config: Option<Emphasis>, style: Style, section: string) {
    && config.Some? && style in config.value.styles
    && (config.value.sections == {} || section in config.value.sections)
  }

  /** Read back the HTML is the text, every tag is closed, and exactly these spans are
      emphasized, each in one `strong` element. */
  ghost predicate ShowsEmphasis(html: string, text: string, spans: seq<Span>) {
    && Unescape(Texts(Lex(html))) == text
    && Nest(Lex(html), []) == Some([])
    && Opened(Lex(html), STRONG) == |spans|
    && Marks(Lex(html), 0, STRONG) == MarkedBy(text, spans, |text|)
  }

  lemma {:induction false} PlainShows(text: string, rtl: bool, runs: string -> seq<Span>)
    requires IsMatcher(runs)
    ensures ShowsEmphasis(BidiHtml(text, rtl, runs), text, [])
  {
    BidiReadsBack(text, rtl, runs);
    BidiMarksNothing(text, rtl, runs);
  }

  lemma {:induction false} EmphasisShows(text: string, spans: seq<Span>, rtl: bool, runs: string -> seq<Span>)
    requires IsMatcher(runs) && SpansIn(spans, |text|)
    ensures ShowsEmphasis(Wrap(text, spans, BidiOf(rtl, runs), StrongOf(rtl, runs)), text, spans)
  {
    EmphasisReadsBack(text, spans, rtl, runs);
    EmphasisMarksSpans(text, spans, rtl, runs);
  }

  /** `_claim_html`. However the text reads and whatever the patterns find, the reader sees
      exactly the claim's text, every tag is closed, and at most `maxGroups` groups of it
      are emphasized - each of them, when the claim is one to emphasize. */
  method RenderClaim(claim: Claim, rtl: bool, section: string, config: Option<Emphasis>, runs: string -> seq<Span>)
    returns (html: string)
    requires IsMatcher(runs) && (config.Some? ==> IsMatcher(config.value.find))
    ensures !Emphasizes(config, claim.style, section) ==> ShowsEmphasis(html, claim.text, [])
    ensures Emphasizes(config, claim.style, section) ==>
      var groups := Groups(claim.text, config.value.find(claim.text));
      ShowsEmphasis(
        html, claim.text, if |groups| <= config.value.maxGroups then groups else groups[..config.value.maxGroups])
  {
    if config.None? || claim.style !in config.value.styles
       || (config.value.sections != {} && section !in config.value.sections) {
      html := Bidi(claim.text, rtl, runs);
      PlainShows(claim.text, rtl, runs);
      return;
    }
    var spans := EmphasisSpans(claim.text, config.value.find(claim.text), config.value.maxGroups);
    html := Assemble(claim.text, spans, BidiOf(rtl, runs), StrongOf(rtl, runs));
    EmphasisShows(claim.text, spans, rtl, runs);
  }
}
