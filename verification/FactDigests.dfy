/** The digest of the facts a document depends on (domain/document.py). A digest is an
    injective constructor over what it covers. */
module FactDigests {
  import opened Contracts

  // ----- the order of `sorted(set(ids))` -----

  predicate Less(a: string, b: string) {
    if b == "" then false
    else if a == "" then true
    else a[0] < b[0] || (a[0] == b[0] && Less(a[1..], b[1..]))
  }

  lemma {:induction false} LessIsTotal(a: string, b: string)
    ensures Less(a, b) || Less(b, a) || a == b
    ensures !(Less(a, b) && Less(b, a)) && !(a == b && Less(a, b))
    decreases |a|
  {
    if a != "" && b != "" {
      LessIsTotal(a[1..], b[1..]);
      assert a == [a[0]] + a[1..] && b == [b[0]] + b[1..];
    }
  }

  lemma {:induction false} LessIsTransitive(a: string, b: string, c: string)
    requires Less(a, b) && Less(b, c)
    ensures Less(a, c)
    decreases |b|
  {
    if a != "" && a[0] == b[0] && b[0] == c[0] {
      LessIsTransitive(a[1..], b[1..], c[1..]);
    }
  }

  ghost predicate Ascending(ids: seq<string>) {
    forall i, j :: 0 <= i < j < |ids| ==> Less(ids[i], ids[j])
  }

  function Insert(id: string, ids: seq<string>): seq<string> {
    if ids == [] || Less(id, ids[0]) then [id] + ids
    else if id == ids[0] then ids
    else [ids[0]] + Insert(id, ids[1..])
  }

  function Sorted(ids: seq<string>): seq<string> {
    if ids == [] then [] else Insert(ids[0], Sorted(ids[1..]))
  }

  lemma {:induction false} InTail(ids: seq<string>, x: string)
    requires ids != []
    ensures x in ids <==> x == ids[0] || x in ids[1..]
  {
    assert ids == [ids[0]] + ids[1..];
  }

  lemma {:induction false} InsertAdds(id: string, ids: seq<string>, x: string)
    ensures x in Insert(id, ids) <==> x == id || x in ids
  {
    if ids != [] && !Less(id, ids[0]) && id != ids[0] {
      InTail(ids, x);
      InsertAdds(id, ids[1..], x);
    }
  }

  lemma {:induction false} InsertKeepsOrder(id: string, ids: seq<string>)
    requires Ascending(ids)
    ensures Ascending(Insert(id, ids))
  {
    if ids == [] {
    } else if Less(id, ids[0]) {
      forall j | 0 <= j < |ids|
        ensures Less(id, ids[j])
      {
        if j > 0 {
          LessIsTransitive(id, ids[0], ids[j]);
        }
      }
    } else if id != ids[0] {
      var rest := Insert(id, ids[1..]);
      InsertKeepsOrder(id, ids[1..]);
      forall j | 0 <= j < |rest|
        ensures Less(ids[0], rest[j])
      {
        LessIsTotal(id, ids[0]);
        InsertAdds(id, ids[1..], rest[j]);
      }
    }
  }

  /** Sorting forgets order and repetition, and nothing else. */
  lemma {:induction false} SortedIsAscending(ids: seq<string>)
    ensures Ascending(Sorted(ids)) && forall x :: x in Sorted(ids) <==> x in ids
  {
    if ids != [] {
      SortedIsAscending(ids[1..]);
      InsertKeepsOrder(ids[0], Sorted(ids[1..]));
      forall x
        ensures x in Sorted(ids) <==> x in ids
      {
        InTail(ids, x);
        InsertAdds(ids[0], Sorted(ids[1..]), x);
      }
    }
  }

  lemma {:induction false} FirstIsLeast(a: seq<string>, x: string)
    requires Ascending(a) && x in a
    ensures a[0] == x || Less(a[0], x)
    ensures x in a[1..] <==> x != a[0]
  {
    var i :| 0 <= i < |a| && a[i] == x;
    LessIsTotal(a[0], x);
    if i > 0 {
      assert a[1..][i - 1] == x;
    }
    forall k | 1 <= k < |a|
      ensures a[k] != a[0]
    {
      LessIsTotal(a[0], a[k]);
    }
  }

  lemma {:induction false} HasMember(a: seq<string>)
    ensures a == [] || exists x :: x in a
  {
    if a != [] {
      assert a[0] in a;
    }
  }

  lemma {:induction false} AscendingIsUnique(a: seq<string>, b: seq<string>)
    requires Ascending(a) && Ascending(b) && forall x :: x in a <==> x in b
    ensures a == b
  {
    if a == [] || b == [] {
      HasMember(a);
      HasMember(b);
    } else {
      FirstIsLeast(a, b[0]);
      FirstIsLeast(b, a[0]);
      LessIsTotal(a[0], b[0]);
      forall x
        ensures x in a[1..] <==> x in b[1..]
      {
        if x in a {
          FirstIsLeast(a, x);
          FirstIsLeast(b, x);
        }
      }
      AscendingIsUnique(a[1..], b[1..]);
      assert a == [a[0]] + a[1..] && b == [b[0]] + b[1..];
    }
  }

  // ----- entries -----

  /** What the digest holds of one fact: everything it says, or that it is gone. Where it is
      stored is left out. */
  datatype Entry = Missing(factId: string) | Says(fact: Fact)

  function EntryOf(facts: FactStore, id: string): Entry {
    if id in facts then Says(facts[id].(sourceFile := "")) else Missing(id)
  }

  function Entries(ids: seq<string>, facts: FactStore): seq<Entry> {
    if ids == [] then [] else [EntryOf(facts, ids[0])] + Entries(ids[1..], facts)
  }

  datatype FactsDigest = OfEntries(entries: seq<Entry>)

  function DigestOf(ids: seq<string>, facts: FactStore): FactsDigest {
    OfEntries(Entries(Sorted(ids), facts))
  }

  /** A store keeps each fact under its own identity. */
  ghost predicate Keyed(facts: FactStore) {
    forall id :: id in facts ==> facts[id].factId == id
  }

  /** The two facts say the same, wherever they are stored. */
  predicate SaysTheSame(a: Fact, b: Fact) {
    && a.factId == b.factId && a.meaning == b.meaning && a.renderings == b.renderings && a.tags == b.tags
    && a.status == b.status && a.effectiveDates == b.effectiveDates && a.supersedes == b.supersedes
    && a.style == b.style
  }

  /** Each named fact says the same in both stores, or is in neither. */
  ghost predicate Agree(ids: seq<string>, f: FactStore, g: FactStore) {
    forall id :: id in ids ==>
      (id in f <==> id in g) && (id in f && id in g ==> SaysTheSame(f[id], g[id]))
  }

  lemma {:induction false} SameEntryExactly(id: string, f: FactStore, g: FactStore)
    ensures EntryOf(f, id) == EntryOf(g, id) <==>
      (id in f <==> id in g) && (id in f && id in g ==> SaysTheSame(f[id], g[id]))
  {
  }

  lemma {:induction false} EntriesAt(ids: seq<string>, facts: FactStore)
    ensures |Entries(ids, facts)| == |ids|
    ensures forall k :: 0 <= k < |ids| ==> Entries(ids, facts)[k] == EntryOf(facts, ids[k])
  {
    if ids != [] {
      EntriesAt(ids[1..], facts);
    }
  }

  /** `facts_hash`: the loop over the sorted identities. */
  method FactsHash(ids: seq<string>, facts: FactStore) returns (digest: FactsDigest)
    ensures digest == DigestOf(ids, facts)
  {
    var sorted := Sorted(ids);
    var entries: seq<Entry> := [];
    EntriesAt(sorted, facts);
    for k := 0 to |sorted|
      invariant entries == Entries(sorted, facts)[..k]
    {
      if sorted[k] !in facts {
        entries := entries + [Missing(sorted[k])];
      } else {
        entries := entries + [Says(facts[sorted[k]].(sourceFile := ""))];
      }
    }
    digest := OfEntries(entries);
  }

  /** The digest is exact: it changes with every change of a named fact - losing it included -
      and with nothing else: not the order of naming, repetition, storage, or another fact. */
  lemma {:induction false} DigestIsExact(a: seq<string>, f: FactStore, b: seq<string>, g: FactStore)
    requires Keyed(f) && Keyed(g)
    ensures DigestOf(a, f) == DigestOf(b, g) <==> (forall id :: id in a <==> id in b) && Agree(a, f, g)
  {
    SortedIsAscending(a);
    SortedIsAscending(b);
    EntriesAt(Sorted(a), f);
    EntriesAt(Sorted(b), g);
    if DigestOf(a, f) == DigestOf(b, g) {
      SameEntriesSameIds(Sorted(a), f, Sorted(b), g);
    }
    if (forall id :: id in a <==> id in b) && Agree(a, f, g) {
      AscendingIsUnique(Sorted(a), Sorted(b));
      forall k | 0 <= k < |Sorted(a)|
        ensures Entries(Sorted(a), f)[k] == Entries(Sorted(b), g)[k]
      {
        assert Sorted(a)[k] in a;
        SameEntryExactly(Sorted(a)[k], f, g);
      }
    }
  }

  lemma {:induction false} SameEntriesSameIds(a: seq<string>, f: FactStore, b: seq<string>, g: FactStore)
    requires Keyed(f) && Keyed(g) && Entries(a, f) == Entries(b, g)
    ensures a == b && Agree(a, f, g)
  {
    EntriesAt(a, f);
    EntriesAt(b, g);
    forall k | 0 <= k < |a|
      ensures a[k] == b[k] && EntryOf(f, a[k]) == EntryOf(g, a[k])
    {
      assert Entries(a, f)[k] == Entries(b, g)[k];
      EntryNamesItsFact(f, a[k]);
      EntryNamesItsFact(g, b[k]);
    }
  }

  function NamedIn(entry: Entry): string {
    match entry
    case Missing(id) => id
    case Says(fact) => fact.factId
  }

  lemma {:induction false} EntryNamesItsFact(facts: FactStore, id: string)
    requires Keyed(facts)
    ensures NamedIn(EntryOf(facts, id)) == id
  {
  }
}
