/** Knowledge moved into rows and back (domain/knowledge_import.py). A fact store is its
    facts in order. */
module KnowledgeImport {
  import opened Wrappers
  import opened Contracts

  // ----- sources -----

  datatype Source = Common | Sales | Development | SituationalSkills | User

  function IdOf(source: Source): string {
    match source
    case Common => "common"
    case Sales => "sales"
    case Development => "development"
    case SituationalSkills => "situational_skills"
    case User => "user"
  }

  /** The position in FACT_SOURCES: the files in their order, then what users created. */
  function Rank(source: Source): nat {
    match source
    case Common => 0
    case Sales => 1
    case Development => 2
    case SituationalSkills => 3
    case User => 4
  }

  function NameOf(source: Source): string { IdOf(source) + ".json" }

  function FileOf(source: Source): string { "base/" + NameOf(source) }

  /** The canonical files, by name and in their order; what users created comes after them. */
  lemma {:induction false} CanonicalFiles()
    ensures FileOf(Common) == "base/common.json" && FileOf(Sales) == "base/sales.json"
    ensures FileOf(Development) == "base/development.json"
    ensures FileOf(SituationalSkills) == "base/situational_skills.json"
    ensures Rank(Common) < Rank(Sales) < Rank(Development) < Rank(SituationalSkills) < Rank(User)
  {
  }

  function LastComponent(path: string): string {
    if '/' !in path then path else LastComponent(path[1..])
  }

  /** `source_name_of`: only the canonical files are sources; `user` names none. */
  function SourceOf(fact: Fact): Option<Source> {
    var name := LastComponent(fact.sourceFile);
    if name == NameOf(Common) then Some(Common)
    else if name == NameOf(Sales) then Some(Sales)
    else if name == NameOf(Development) then Some(Development)
    else if name == NameOf(SituationalSkills) then Some(SituationalSkills)
    else None
  }

  lemma {:induction false} LastComponentIs(directory: string, name: string)
    requires '/' !in name
    ensures LastComponent(directory + "/" + name) == name
    decreases |directory|
  {
    var path := directory + "/" + name;
    assert path[|directory|] == '/';
    if directory == "" {
      assert path[1..] == name;
    } else {
      assert path[1..] == directory[1..] + "/" + name;
      LastComponentIs(directory[1..], name);
    }
  }

  lemma {:induction false} NamesDiffer(a: Source, b: Source)
    ensures NameOf(a) == NameOf(b) <==> a == b
    ensures '/' !in NameOf(a)
  {
    assert |NameOf(a)| == |IdOf(a)| + 5 && |NameOf(b)| == |IdOf(b)| + 5;
    assert |IdOf(a)| == |IdOf(b)| ==> a == b;
  }

  lemma {:induction false} FileNamesItsSource(fact: Fact, source: Source)
    requires fact.sourceFile == FileOf(source)
    ensures SourceOf(fact) == if source.User? then None else Some(source)
  {
    NamesDiffer(source, source);
    LastComponentIs("base", NameOf(source));
    assert "base" + "/" + NameOf(source) == FileOf(source);
    NamesDiffer(source, Common);
    NamesDiffer(source, Sales);
    NamesDiffer(source, Development);
    NamesDiffer(source, SituationalSkills);
  }

  // ----- rows -----

  datatype Row = Row(content: Fact, source: Source, ordinal: nat)

  function CountOf(facts: seq<Fact>, source: Source): nat {
    if facts == [] then 0
    else CountOf(facts[..|facts| - 1], source) + (if SourceOf(facts[|facts| - 1]) == Some(source) then 1 else 0)
  }

  predicate AllSourced(facts: seq<Fact>) {
    forall k :: 0 <= k < |facts| ==> SourceOf(facts[k]).Some?
  }

  function RowAt(facts: seq<Fact>, k: nat): Row
    requires k < |facts| && SourceOf(facts[k]).Some?
  {
    var source := SourceOf(facts[k]).value;
    Row(facts[k].(sourceFile := ""), source, CountOf(facts[..k], source) + 1)
  }

  /** One row a fact: what it says, its source, and its position within that source. */
  function RowsOf(facts: seq<Fact>): (rows: seq<Row>)
    requires AllSourced(facts)
  {
    seq(|facts|, k requires 0 <= k < |facts| => RowAt(facts, k))
  }

  function Raised(ordinals: map<Source, nat>, source: Source): (raised: map<Source, nat>)
    ensures source in raised
  {
    ordinals[source := (if source in ordinals then ordinals[source] else 0) + 1]
  }

  ghost predicate Counted(ordinals: map<Source, nat>, facts: seq<Fact>, k: nat) {
    k <= |facts| &&
    forall source: Source :: CountOf(facts[..k], source) == if source in ordinals then ordinals[source] else 0
  }

  lemma {:induction false} CountStep(ordinals: map<Source, nat>, facts: seq<Fact>, k: nat)
    requires k < |facts| && Counted(ordinals, facts, k) && SourceOf(facts[k]).Some?
    ensures Counted(Raised(ordinals, SourceOf(facts[k]).value), facts, k + 1)
    ensures Raised(ordinals, SourceOf(facts[k]).value)[SourceOf(facts[k]).value] == RowAt(facts, k).ordinal
  {
    assert facts[..k + 1][..k] == facts[..k];
  }

  method FactRows(facts: seq<Fact>) returns (rows: Option<seq<Row>>)
    ensures rows.Some? <==> AllSourced(facts)
    ensures rows.Some? ==> rows.value == RowsOf(facts)
  {
    var ordinals: map<Source, nat> := map[];
    var made: seq<Row> := [];
    for k := 0 to |facts|
      invariant Counted(ordinals, facts, k)
      invariant |made| == k && forall j :: 0 <= j < k ==> SourceOf(facts[j]).Some? && made[j] == RowAt(facts, j)
    {
      var named := SourceOf(facts[k]);
      if named.None? {
        return None;
      }
      var source := named.value;
      CountStep(ordinals, facts, k);
      ordinals := Raised(ordinals, source);
      made := made + [Row(facts[k].(sourceFile := ""), source, ordinals[source])];
    }
    assert facts[..|facts|] == facts;
    rows := Some(made);
  }

  function FactOf(row: Row): Fact {
    row.content.(sourceFile := FileOf(row.source))
  }

  predicate KeyBefore(a: Row, b: Row) {
    Rank(a.source) < Rank(b.source) || (Rank(a.source) == Rank(b.source) && a.ordinal < b.ordinal)
  }

  /** Python's stable sort by source and ordinal. */
  function InsertRow(row: Row, rows: seq<Row>): seq<Row> {
    if rows == [] || !KeyBefore(rows[0], row) then [row] + rows else [rows[0]] + InsertRow(row, rows[1..])
  }

  function SortedRows(rows: seq<Row>): seq<Row> {
    if rows == [] then [] else InsertRow(rows[0], SortedRows(rows[1..]))
  }

  /** A dictionary keeps the first place of a key and its last value. */
  function Put(facts: seq<Fact>, fact: Fact): seq<Fact> {
    if facts == [] then [fact]
    else if facts[0].factId == fact.factId then [fact] + facts[1..]
    else [facts[0]] + Put(facts[1..], fact)
  }

  function Laid(rows: seq<Row>): seq<Fact> {
    if rows == [] then [] else Put(Laid(rows[..|rows| - 1]), FactOf(rows[|rows| - 1]))
  }

  /** `fact_store_from_rows`. */
  function Load(rows: seq<Row>): seq<Fact> {
    Laid(SortedRows(rows))
  }

  // ----- a repeated identity -----

  /** Row i is the last of its fact, and holds the fact so. */
  ghost predicate LastOfFact(rows: seq<Row>, i: int, fact: Fact) {
    && 0 <= i < |rows| && fact == FactOf(rows[i])
    && forall j :: i < j < |rows| ==> rows[j].content.factId != rows[i].content.factId
  }

  lemma {:induction false} PutExactly(facts: seq<Fact>, fact: Fact)
    requires DistinctFacts(facts)
    ensures DistinctFacts(Put(facts, fact))
    ensures forall f :: f in Put(facts, fact) <==> f == fact || (f in facts && f.factId != fact.factId)
    ensures |facts| <= |Put(facts, fact)|
    ensures forall k :: 0 <= k < |facts| ==> Put(facts, fact)[k].factId == facts[k].factId
  {
    if facts != [] && facts[0].factId != fact.factId {
      PutExactly(facts[1..], fact);
      assert facts == [facts[0]] + facts[1..];
      forall f | f in Put(facts[1..], fact)
        ensures f.factId != facts[0].factId
      {
      }
    } else if facts != [] {
      assert facts == [facts[0]] + facts[1..];
    }
  }

  /** Whatever rows are loaded, no fact stands twice, and each stands as its last row has it. */
  lemma {:induction false} LaidExactly(rows: seq<Row>)
    ensures DistinctFacts(Laid(rows))
    ensures forall fact :: fact in Laid(rows) <==> exists i :: LastOfFact(rows, i, fact)
  {
    if rows != [] {
      var shorter, last := rows[..|rows| - 1], rows[|rows| - 1];
      LaidExactly(shorter);
      PutExactly(Laid(shorter), FactOf(last));
      forall fact
        ensures fact in Laid(rows) <==> exists i :: LastOfFact(rows, i, fact)
      {
        LastOneMore(shorter, last, fact);
        assert rows == shorter + [last];
      }
    }
  }

  lemma {:induction false} LastOneMore(shorter: seq<Row>, last: Row, fact: Fact)
    ensures (exists i :: LastOfFact(shorter + [last], i, fact)) <==>
      fact == FactOf(last)
      || (fact.factId != last.content.factId && exists i :: LastOfFact(shorter, i, fact))
  {
    var rows := shorter + [last];
    if fact == FactOf(last) {
      assert LastOfFact(rows, |shorter|, fact);
    } else if fact.factId != last.content.factId && exists i :: LastOfFact(shorter, i, fact) {
      var i :| LastOfFact(shorter, i, fact);
      assert LastOfFact(rows, i, fact);
    }
    forall i | LastOfFact(rows, i, fact)
      ensures fact == FactOf(last) || (fact.factId != last.content.factId && LastOfFact(shorter, i, fact))
    {
      assert rows[|shorter|] == last && forall j :: 0 <= j < |shorter| ==> shorter[j] == rows[j];
    }
  }

  // ----- sorting -----

  ghost predicate Ordered(rows: seq<Row>) {
    forall i, j :: 0 <= i < j < |rows| ==> !KeyBefore(rows[j], rows[i])
  }

  ghost predicate StrictlyOrdered(rows: seq<Row>) {
    forall i, j :: 0 <= i < j < |rows| ==> KeyBefore(rows[i], rows[j])
  }

  lemma {:induction false} InsertOrders(row: Row, rows: seq<Row>)
    requires Ordered(rows)
    ensures Ordered(InsertRow(row, rows)) && multiset(InsertRow(row, rows)) == multiset(rows) + multiset{row}
  {
    if rows != [] && KeyBefore(rows[0], row) {
      var rest := InsertRow(row, rows[1..]);
      InsertOrders(row, rows[1..]);
      assert rows == [rows[0]] + rows[1..];
      forall j | 0 <= j < |rest|
        ensures !KeyBefore(rest[j], rows[0])
      {
        assert rest[j] in multiset(rest);
        assert rest[j] == row || rest[j] in rows[1..];
      }
    }
  }

  lemma {:induction false} SortOrders(rows: seq<Row>)
    ensures Ordered(SortedRows(rows)) && multiset(SortedRows(rows)) == multiset(rows)
  {
    if rows != [] {
      SortOrders(rows[1..]);
      InsertOrders(rows[0], SortedRows(rows[1..]));
      assert rows == [rows[0]] + rows[1..];
    }
  }

  lemma {:induction false} TailMultiset(rows: seq<Row>)
    requires rows != []
    ensures multiset(rows[1..]) == multiset(rows) - multiset{rows[0]}
  {
    assert rows == [rows[0]] + rows[1..];
  }

  lemma {:induction false} FirstIsFirst(a: seq<Row>, b: seq<Row>)
    requires StrictlyOrdered(a) && Ordered(b) && multiset(a) == multiset(b) && a != [] && b != []
    ensures a[0] == b[0]
  {
    assert a[0] in multiset(b) && b[0] in multiset(a);
    var i :| 0 <= i < |b| && b[i] == a[0];
    var j :| 0 <= j < |a| && a[j] == b[0];
    assert j > 0 ==> KeyBefore(a[0], a[j]);
    assert i > 0 ==> !KeyBefore(b[i], b[0]);
  }

  lemma {:induction false} OrderIsUnique(a: seq<Row>, b: seq<Row>)
    requires StrictlyOrdered(a) && Ordered(b) && multiset(a) == multiset(b)
    ensures a == b
  {
    assert |a| == |multiset(a)| == |b|;
    if a != [] {
      FirstIsFirst(a, b);
      TailMultiset(a);
      TailMultiset(b);
      OrderIsUnique(a[1..], b[1..]);
      assert a == [a[0]] + a[1..] && b == [b[0]] + b[1..];
    }
  }

  // ----- there and back -----

  predicate DistinctFacts(facts: seq<Fact>) {
    forall i, j :: 0 <= i < j < |facts| ==> facts[i].factId != facts[j].factId
  }

  /** Each fact sits in one of the canonical files. */
  predicate FiledFacts(facts: seq<Fact>) {
    forall k :: 0 <= k < |facts| ==> SourceOf(facts[k]).Some? && facts[k].sourceFile == FileOf(SourceOf(facts[k]).value)
  }

  /** The facts of the sources, one source after another in their order. */
  predicate InSourceOrder(facts: seq<Fact>)
    requires AllSourced(facts)
  {
    forall i, j :: 0 <= i < j < |facts| ==> Rank(SourceOf(facts[i]).value) <= Rank(SourceOf(facts[j]).value)
  }

  lemma {:induction false} PutAppends(facts: seq<Fact>, fact: Fact)
    requires forall k :: 0 <= k < |facts| ==> facts[k].factId != fact.factId
    ensures Put(facts, fact) == facts + [fact]
  {
    if facts != [] {
      PutAppends(facts[1..], fact);
      assert facts + [fact] == [facts[0]] + (facts[1..] + [fact]);
    }
  }

  ghost predicate DistinctRows(rows: seq<Row>) {
    forall i, j :: 0 <= i < j < |rows| ==> rows[i].content.factId != rows[j].content.factId
  }

  lemma {:induction false} LaidKeepsOrder(rows: seq<Row>)
    requires DistinctRows(rows)
    ensures |Laid(rows)| == |rows| && forall k :: 0 <= k < |rows| ==> Laid(rows)[k] == FactOf(rows[k])
  {
    if rows != [] {
      LaidKeepsOrder(rows[..|rows| - 1]);
      PutAppends(Laid(rows[..|rows| - 1]), FactOf(rows[|rows| - 1]));
    }
  }

  lemma {:induction false} CountGrows(facts: seq<Fact>, i: nat, j: nat, source: Source)
    requires i <= j <= |facts|
    ensures CountOf(facts[..i], source) <= CountOf(facts[..j], source)
    ensures i < j && SourceOf(facts[i]) == Some(source) ==> CountOf(facts[..i], source) < CountOf(facts[..j], source)
    decreases j - i
  {
    if i < j {
      CountGrows(facts, i, j - 1, source);
      assert facts[..j][..j - 1] == facts[..j - 1];
    }
  }

  lemma {:induction false} RowsFollowTheStore(facts: seq<Fact>)
    requires AllSourced(facts) && InSourceOrder(facts)
    ensures StrictlyOrdered(RowsOf(facts))
  {
    var rows := RowsOf(facts);
    forall i, j | 0 <= i < j < |rows|
      ensures KeyBefore(rows[i], rows[j])
    {
      CountGrows(facts, i, j, SourceOf(facts[i]).value);
    }
  }

  lemma {:induction false} SameRowsDistinct(a: seq<Row>, b: seq<Row>)
    requires DistinctRows(a) && multiset(a) == multiset(b)
    ensures DistinctRows(b)
  {
    forall i, j | 0 <= i < j < |b|
      ensures b[i].content.factId != b[j].content.factId
    {
      if b[i].content.factId == b[j].content.factId {
        TwiceInMultiset(b, i, j);
        assert b[i] in multiset(a) && b[j] in multiset(a);
        var k :| 0 <= k < |a| && a[k] == b[i];
        var l :| 0 <= l < |a| && a[l] == b[j];
        assert k == l;
        OnceInMultiset(a, k);
      }
    }
  }

  lemma {:induction false} TwiceInMultiset(b: seq<Row>, i: nat, j: nat)
    requires i < j < |b|
    ensures b[i] == b[j] ==> multiset(b)[b[i]] >= 2
  {
    assert b == b[..i] + [b[i]] + b[i + 1..j] + [b[j]] + b[j + 1..];
  }

  lemma {:induction false} OnceInMultiset(a: seq<Row>, k: nat)
    requires DistinctRows(a) && k < |a|
    ensures multiset(a)[a[k]] == 1
  {
    assert a == a[..k] + [a[k]] + a[k + 1..];
    assert a[k] !in a[..k] && a[k] !in a[k + 1..];
  }

  /** Importing and loading is the identity on facts and their order, in whatever order the
      rows come back, exactly when the store lays its sources out one after another. */
  lemma {:induction false} ImportRoundTrips(facts: seq<Fact>, rows: seq<Row>)
    requires DistinctFacts(facts) && FiledFacts(facts) && multiset(rows) == multiset(RowsOf(facts))
    ensures Load(rows) == facts <==> InSourceOrder(facts)
  {
    var made := RowsOf(facts);
    var sorted := SortedRows(rows);
    SortOrders(rows);
    assert DistinctRows(made);
    SameRowsDistinct(made, sorted);
    LaidKeepsOrder(sorted);
    if InSourceOrder(facts) {
      RowsFollowTheStore(facts);
      OrderIsUnique(made, sorted);
      forall k | 0 <= k < |facts|
        ensures Load(rows)[k] == facts[k]
      {
        assert sorted[k] == RowAt(facts, k);
      }
    }
    if Load(rows) == facts {
      forall i, j | 0 <= i < j < |facts|
        ensures Rank(SourceOf(facts[i]).value) <= Rank(SourceOf(facts[j]).value)
      {
        assert !KeyBefore(sorted[j], sorted[i]);
        FileNamesItsSource(facts[i], sorted[i].source);
        FileNamesItsSource(facts[j], sorted[j].source);
      }
    }
  }

  function Filed(facts: seq<Fact>, source: Source): (filed: seq<Fact>)
    ensures |filed| == |facts| && forall k :: 0 <= k < |facts| ==> filed[k] == facts[k].(sourceFile := FileOf(source))
  {
    seq(|facts|, k requires 0 <= k < |facts| => facts[k].(sourceFile := FileOf(source)))
  }

  /** `FactStore.from_sources`: the canonical files, in their order. */
  function FromSources(common: seq<Fact>, sales: seq<Fact>, development: seq<Fact>, skills: seq<Fact>): seq<Fact> {
    Filed(common, Common) + Filed(sales, Sales) + Filed(development, Development) + Filed(skills, SituationalSkills)
  }

  /** Filed facts in source order, from sources ranked `low` to `high`. */
  ghost predicate LaidOut(facts: seq<Fact>, low: nat, high: nat) {
    && FiledFacts(facts) && InSourceOrder(facts)
    && forall k :: 0 <= k < |facts| ==> low <= Rank(SourceOf(facts[k]).value) <= high
  }

  lemma {:induction false} FiledIsLaidOut(facts: seq<Fact>, source: Source)
    requires !source.User?
    ensures LaidOut(Filed(facts, source), Rank(source), Rank(source))
  {
    var filed := Filed(facts, source);
    forall k | 0 <= k < |filed|
      ensures SourceOf(filed[k]) == Some(source)
    {
      FileNamesItsSource(filed[k], source);
    }
  }

  lemma {:induction false} LaidOutJoins(a: seq<Fact>, b: seq<Fact>, low: nat, middle: nat, next: nat, high: nat)
    requires LaidOut(a, low, middle) && LaidOut(b, next, high) && low <= middle <= next <= high
    ensures LaidOut(a + b, low, high)
  {
  }

  /** A store built from sources survives its rows, in whatever order they come back. */
  lemma {:induction false} SourcesRoundTrip(
      common: seq<Fact>, sales: seq<Fact>, development: seq<Fact>, skills: seq<Fact>, rows: seq<Row>)
    requires var facts := FromSources(common, sales, development, skills);
             DistinctFacts(facts) && (AllSourced(facts) ==> multiset(rows) == multiset(RowsOf(facts)))
    ensures Load(rows) == FromSources(common, sales, development, skills)
  {
    FiledIsLaidOut(common, Common);
    FiledIsLaidOut(sales, Sales);
    FiledIsLaidOut(development, Development);
    FiledIsLaidOut(skills, SituationalSkills);
    var two := Filed(common, Common) + Filed(sales, Sales);
    LaidOutJoins(Filed(common, Common), Filed(sales, Sales), 0, 0, 1, 1);
    LaidOutJoins(two, Filed(development, Development), 0, 1, 2, 2);
    LaidOutJoins(two + Filed(development, Development), Filed(skills, SituationalSkills), 0, 2, 3, 3);
    ImportRoundTrips(FromSources(common, sales, development, skills), rows);
  }

  /** What was loaded can be exported again exactly when no user created a fact: `user` is a
      source of rows, but names no file. */
  lemma {:induction false} ReexportNeedsNoUserFact(rows: seq<Row>)
    requires DistinctRows(rows)
    ensures AllSourced(Load(rows)) <==> NoUserRow(rows)
  {
    var sorted := SortedRows(rows);
    SortOrders(rows);
    SameRowsDistinct(rows, sorted);
    LaidKeepsOrder(sorted);
    forall k | 0 <= k < |sorted|
      ensures SourceOf(Load(rows)[k]).Some? <==> !sorted[k].source.User?
    {
      FileNamesItsSource(Load(rows)[k], sorted[k].source);
    }
    SameUsers(rows, sorted);
  }

  ghost predicate NoUserRow(rows: seq<Row>) {
    forall k :: 0 <= k < |rows| ==> !rows[k].source.User?
  }

  lemma {:induction false} SameUsers(a: seq<Row>, b: seq<Row>)
    requires multiset(a) == multiset(b)
    ensures NoUserRow(a) <==> NoUserRow(b)
  {
    forall k | 0 <= k < |b|
      ensures b[k] in a
    {
      assert b[k] in multiset(a);
    }
    forall k | 0 <= k < |a|
      ensures a[k] in b
    {
      assert a[k] in multiset(b);
    }
  }

  // ----- Profiles -----

  /** A Profile's own candidate fields beside its section pools. */
  datatype FullProfile = FullProfile(profile: Profile, safeHeadlines: seq<string>, omittedRoles: map<string, string>)

  datatype Entry = Entry(factId: string, pinned: bool)

  datatype Binding = Binding(
    safeHeadlines: seq<string>, omittedRoles: map<string, string>, sections: map<string, seq<Entry>>)

  datatype SplitError = RepeatedSection | UnknownSections

  predicate DistinctNames(sections: seq<SectionSpec>) {
    forall i, j :: 0 <= i < j < |sections| ==> sections[i].nameEn != sections[j].nameEn
  }

  /** A section without the fields that name one candidate's facts. */
  function Unbound(section: SectionSpec): SectionSpec {
    section.(factIds := [], pinnedFactIds := [])
  }

  function UnboundAll(sections: seq<SectionSpec>): (bare: seq<SectionSpec>)
    ensures |bare| == |sections| && forall k :: 0 <= k < |sections| ==> bare[k] == Unbound(sections[k])
  {
    if sections == [] then [] else [Unbound(sections[0])] + UnboundAll(sections[1..])
  }

  function EntriesOf(pool: seq<string>, pinned: seq<string>): seq<Entry> {
    if pool == [] then [] else [Entry(pool[0], pool[0] in pinned)] + EntriesOf(pool[1..], pinned)
  }

  function PoolOf(entries: seq<Entry>): seq<string> {
    if entries == [] then [] else [entries[0].factId] + PoolOf(entries[1..])
  }

  function PinsOf(entries: seq<Entry>): seq<string> {
    if entries == [] then []
    else if entries[0].pinned then [entries[0].factId] + PinsOf(entries[1..])
    else PinsOf(entries[1..])
  }

  /** The pinned facts of a pool, in the pool's order. */
  function InPoolOrder(pool: seq<string>, pinned: seq<string>): seq<string> {
    if pool == [] then []
    else if pool[0] in pinned then [pool[0]] + InPoolOrder(pool[1..], pinned)
    else InPoolOrder(pool[1..], pinned)
  }

  method SplitProfile(full: FullProfile) returns (split: Result<(Profile, Binding), SplitError>)
    ensures split.Ok? <==> DistinctNames(full.profile.sections)
    ensures split.Ok? ==>
      && split.value.0.(sections := []) == full.profile.(sections := [])
      && |split.value.0.sections| == |full.profile.sections|
      && (forall k :: 0 <= k < |full.profile.sections| ==>
            split.value.0.sections[k] == full.profile.sections[k].(factIds := [], pinnedFactIds := []))
      && split.value.1.safeHeadlines == full.safeHeadlines && split.value.1.omittedRoles == full.omittedRoles
      && BindsSections(split.value.1.sections, full.profile.sections)
  {
    var bound := BindSections(full.profile.sections);
    if bound.None? {
      return Err(RepeatedSection);
    }
    split := Ok((full.profile.(sections := UnboundAll(full.profile.sections)),
                 Binding(full.safeHeadlines, full.omittedRoles, bound.value)));
  }

  method BindSections(sections: seq<SectionSpec>) returns (bound: Option<map<string, seq<Entry>>>)
    ensures bound.Some? <==> DistinctNames(sections)
    ensures bound.Some? ==> BindsSections(bound.value, sections)
  {
    var made: map<string, seq<Entry>> := map[];
    for k := 0 to |sections|
      invariant DistinctNames(sections[..k])
      invariant BindsSections(made, sections[..k])
    {
      if sections[k].nameEn in made {
        var j :| 0 <= j < k && sections[..k][j].nameEn == sections[k].nameEn;
        assert sections[j].nameEn == sections[k].nameEn;
        return None;
      }
      BindsOneMore(made, sections, k);
      made := made[sections[k].nameEn := EntriesOf(sections[k].factIds, sections[k].pinnedFactIds)];
    }
    assert sections[..|sections|] == sections;
    bound := Some(made);
  }

  lemma {:induction false} BindsOneMore(bound: map<string, seq<Entry>>, sections: seq<SectionSpec>, k: nat)
    requires k < |sections| && BindsSections(bound, sections[..k]) && sections[k].nameEn !in bound
    requires DistinctNames(sections[..k])
    ensures BindsSections(
      bound[sections[k].nameEn := EntriesOf(sections[k].factIds, sections[k].pinnedFactIds)], sections[..k + 1])
    ensures DistinctNames(sections[..k + 1])
  {
    var longer := sections[..k + 1];
    assert longer == sections[..k] + [sections[k]];
    var after := bound[sections[k].nameEn := EntriesOf(sections[k].factIds, sections[k].pinnedFactIds)];
    forall i | 0 <= i < k
      ensures longer[i].nameEn != sections[k].nameEn
    {
      assert sections[..k][i].nameEn in bound;
    }
    forall name | name in after
      ensures exists j :: 0 <= j < |longer| && longer[j].nameEn == name
    {
      if name == sections[k].nameEn {
        assert longer[k].nameEn == name;
      } else {
        var j :| 0 <= j < k && sections[..k][j].nameEn == name;
        assert longer[j].nameEn == name;
      }
    }
  }

  /** Exactly these sections, each with its pool and its pins. */
  ghost predicate BindsSections(bound: map<string, seq<Entry>>, sections: seq<SectionSpec>) {
    && (forall k :: 0 <= k < |sections| ==>
          && sections[k].nameEn in bound
          && bound[sections[k].nameEn] == EntriesOf(sections[k].factIds, sections[k].pinnedFactIds))
    && (forall name :: name in bound ==> exists k :: 0 <= k < |sections| && sections[k].nameEn == name)
  }

  function Joined(section: SectionSpec, bound: map<string, seq<Entry>>): SectionSpec {
    var entries := if section.nameEn in bound then bound[section.nameEn] else [];
    section.(factIds := PoolOf(entries), pinnedFactIds := PinsOf(entries))
  }

  method JoinProfile(template: Profile, binding: Binding) returns (joined: Result<FullProfile, SplitError>)
    ensures joined.Ok? <==>
      forall name :: name in binding.sections ==>
        exists k :: 0 <= k < |template.sections| && template.sections[k].nameEn == name
    ensures joined.Ok? ==>
      && joined.value.safeHeadlines == binding.safeHeadlines && joined.value.omittedRoles == binding.omittedRoles
      && joined.value.profile.(sections := []) == template.(sections := [])
      && |joined.value.profile.sections| == |template.sections|
      && forall k :: 0 <= k < |template.sections| ==>
           joined.value.profile.sections[k] == Joined(template.sections[k], binding.sections)
  {
    if exists name :: name in binding.sections && !Named(template.sections, name) {
      return Err(UnknownSections);
    }
    assert forall name :: name in binding.sections ==> Named(template.sections, name);
    var sections: seq<SectionSpec> := [];
    for k := 0 to |template.sections|
      invariant |sections| == k
      invariant forall j :: 0 <= j < k ==> sections[j] == Joined(template.sections[j], binding.sections)
    {
      sections := sections + [Joined(template.sections[k], binding.sections)];
    }
    joined := Ok(FullProfile(template.(sections := sections), binding.safeHeadlines, binding.omittedRoles));
  }

  predicate Named(sections: seq<SectionSpec>, name: string) {
    exists k :: 0 <= k < |sections| && sections[k].nameEn == name
  }

  lemma {:induction false} EntriesGiveBack(pool: seq<string>, pinned: seq<string>)
    ensures PoolOf(EntriesOf(pool, pinned)) == pool && PinsOf(EntriesOf(pool, pinned)) == InPoolOrder(pool, pinned)
  {
    if pool != [] {
      EntriesGiveBack(pool[1..], pinned);
      assert EntriesOf(pool, pinned)[1..] == EntriesOf(pool[1..], pinned);
    }
  }

  /** Putting pins in pool order changes no pin of the pool. */
  lemma {:induction false} PoolOrderKeepsPins(pool: seq<string>, pinned: seq<string>)
    ensures forall id :: id in InPoolOrder(pool, pinned) <==> id in pool && id in pinned
  {
    if pool != [] {
      PoolOrderKeepsPins(pool[1..], pinned);
      assert pool == [pool[0]] + pool[1..];
    }
  }

  /** Pins are in pool order already: at increasing places of the pool. */
  ghost predicate PoolOrdered(pool: seq<string>, pinned: seq<string>) {
    exists places :: Places(pool, pinned, places)
  }

  predicate NoRepeats(ids: seq<string>) {
    forall i, j :: 0 <= i < j < |ids| ==> ids[i] != ids[j]
  }

  lemma {:induction false} OrderedPinsAreOrdered(pool: seq<string>, pinned: seq<string>) returns (places: seq<int>)
    ensures Places(pool, InPoolOrder(pool, pinned), places)
  {
    if pool == [] {
      places := [];
    } else {
      var rest := OrderedPinsAreOrdered(pool[1..], pinned);
      places := PlacesBehind(pool, InPoolOrder(pool[1..], pinned), rest);
      if pool[0] in pinned {
        assert Places(pool, [pool[0]] + InPoolOrder(pool[1..], pinned), [0] + places);
        places := [0] + places;
      }
    }
  }

  lemma {:induction false} PlacesBehind(pool: seq<string>, ids: seq<string>, places: seq<int>)
    returns (shifted: seq<int>)
    requires pool != [] && Places(pool[1..], ids, places)
    ensures Places(pool, ids, shifted) && forall k :: 0 <= k < |shifted| ==> shifted[k] > 0
  {
    shifted := seq(|places|, k requires 0 <= k < |places| => places[k] + 1);
  }

  lemma {:induction false} OnlyMembersMatter(pool: seq<string>, p: seq<string>, q: seq<string>)
    requires forall id :: id in pool ==> (id in p <==> id in q)
    ensures InPoolOrder(pool, p) == InPoolOrder(pool, q)
  {
    if pool != [] {
      assert pool[0] in pool && forall id :: id in pool[1..] ==> id in pool;
      OnlyMembersMatter(pool[1..], p, q);
    }
  }

  /** `places` shows where in the pool each pin is, each after the one before. */
  ghost predicate Places(pool: seq<string>, pinned: seq<string>, places: seq<int>) {
    && |places| == |pinned|
    && (forall k :: 0 <= k < |places| ==> 0 <= places[k] < |pool| && pool[places[k]] == pinned[k])
    && forall i, j :: 0 <= i < j < |places| ==> places[i] < places[j]
  }

  lemma {:induction false} ShiftPlaces(pool: seq<string>, pinned: seq<string>, places: seq<int>)
    returns (shifted: seq<int>)
    requires pool != [] && Places(pool, pinned, places) && (places != [] ==> places[0] > 0)
    ensures Places(pool[1..], pinned, shifted)
  {
    shifted := seq(|places|, k requires 0 <= k < |places| => places[k] - 1);
    forall k | 0 <= k < |shifted|
      ensures 0 <= shifted[k] < |pool[1..]| && pool[1..][shifted[k]] == pinned[k]
    {
      assert k > 0 ==> places[0] < places[k];
    }
  }

  lemma {:induction false} OrderedPinsStay(pool: seq<string>, pinned: seq<string>, places: seq<int>)
    requires NoRepeats(pool) && Places(pool, pinned, places)
    ensures InPoolOrder(pool, pinned) == pinned
  {
    if pool == [] {
      assert pinned == [];
    } else if places != [] && places[0] == 0 {
      assert Places(pool, pinned[1..], places[1..]);
      var shifted := ShiftPlaces(pool, pinned[1..], places[1..]);
      OrderedPinsStay(pool[1..], pinned[1..], shifted);
      assert pinned == [pool[0]] + pinned[1..];
      OnlyMembersMatter(pool[1..], pinned, pinned[1..]);
    } else {
      var shifted := ShiftPlaces(pool, pinned, places);
      OrderedPinsStay(pool[1..], pinned, shifted);
      assert pool[0] !in pinned by {
        assert forall k :: 0 <= k < |pinned| ==> pinned[k] == pool[places[k]] && places[k] > 0;
      }
    }
  }

  /** The validated shape of a section pool: no repeated candidate. */
  predicate ValidPools(sections: seq<SectionSpec>) {
    forall k :: 0 <= k < |sections| ==> NoRepeats(sections[k].factIds)
  }

  /** Splitting and joining again gives the Profile with each pinned list put in pool order:
      the same Profile exactly when the pins were already a pool-ordered sublist. */
  lemma {:induction false} SplitThenJoin(
      sections: seq<SectionSpec>, bound: map<string, seq<Entry>>, joined: seq<SectionSpec>)
    requires ValidPools(sections) && BindsSections(bound, sections)
    requires |joined| == |sections|
    requires forall k :: 0 <= k < |sections| ==> joined[k] == Joined(UnboundAll(sections)[k], bound)
    ensures forall k :: 0 <= k < |sections| ==>
      joined[k] == sections[k].(pinnedFactIds := InPoolOrder(sections[k].factIds, sections[k].pinnedFactIds))
    ensures joined == sections <==>
      forall k :: 0 <= k < |sections| ==> PoolOrdered(sections[k].factIds, sections[k].pinnedFactIds)
  {
    forall k | 0 <= k < |sections|
      ensures joined[k] == sections[k].(pinnedFactIds := InPoolOrder(sections[k].factIds, sections[k].pinnedFactIds))
      ensures joined[k] == sections[k] <==> PoolOrdered(sections[k].factIds, sections[k].pinnedFactIds)
    {
      EntriesGiveBack(sections[k].factIds, sections[k].pinnedFactIds);
      PoolOrderIsExact(sections[k].factIds, sections[k].pinnedFactIds);
    }
    assert joined == sections <==> forall k :: 0 <= k < |sections| ==> joined[k] == sections[k];
  }

  lemma {:induction false} PoolOrderIsExact(pool: seq<string>, pinned: seq<string>)
    requires NoRepeats(pool)
    ensures InPoolOrder(pool, pinned) == pinned <==> PoolOrdered(pool, pinned)
  {
    if PoolOrdered(pool, pinned) {
      var places :| Places(pool, pinned, places);
      OrderedPinsStay(pool, pinned, places);
    }
    var places := OrderedPinsAreOrdered(pool, pinned);
  }

  /** The other way round: joining and splitting gives back every section's binding, when its
      pool repeats no fact. */
  lemma {:induction false} JoinThenSplit(entries: seq<Entry>)
    requires NoRepeats(PoolOf(entries))
    ensures EntriesOf(PoolOf(entries), PinsOf(entries)) == entries
  {
    JoinThenSplitFrom(entries, []);
    assert [] + PinsOf(entries) == PinsOf(entries);
  }

  lemma {:induction false} PinsAreInPool(entries: seq<Entry>)
    ensures forall id :: id in PinsOf(entries) ==> id in PoolOf(entries)
  {
    if entries != [] {
      PinsAreInPool(entries[1..]);
    }
  }

  lemma {:induction false} JoinThenSplitFrom(entries: seq<Entry>, before: seq<string>)
    requires NoRepeats(PoolOf(entries)) && forall id :: id in before ==> id !in PoolOf(entries)
    ensures EntriesOf(PoolOf(entries), before + PinsOf(entries)) == entries
  {
    if entries != [] {
      var first, rest := entries[0], entries[1..];
      PinsAreInPool(rest);
      assert PoolOf(entries)[1..] == PoolOf(rest);
      assert first.factId !in PoolOf(rest) by {
        assert forall j :: 0 < j < |PoolOf(entries)| ==> PoolOf(entries)[0] != PoolOf(entries)[j];
      }
      var seen := if first.pinned then before + [first.factId] else before;
      assert before + PinsOf(entries) == seen + PinsOf(rest);
      JoinThenSplitFrom(rest, seen);
      assert first.factId in before + PinsOf(entries) <==> first.pinned;
    }
  }
}
