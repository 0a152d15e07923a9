/** The employment history a Profile prints (domain/profiles.py): every dated role offered
    or waived, and no hole between two roles it offers. */
module EmploymentGap {
  import opened Wrappers
  import opened Contracts
  import FactDigests

  /** A year and a month 01..12, as `_ROLE_SPAN` matches them. */
  datatype YearMonth = YearMonth(year: nat, month: nat)

  predicate OnCalendar(at: YearMonth) {
    1 <= at.month <= 12
  }

  function Month(at: YearMonth): nat {
    at.year * 12 + at.month
  }

  function NextMonth(at: YearMonth): YearMonth {
    if at.month == 12 then YearMonth(at.year + 1, 1) else YearMonth(at.year, at.month + 1)
  }

  /** The ordinal loses nothing: calendar months are compared, and counted on, by it. */
  lemma {:induction false} MonthIsExact(a: YearMonth, b: YearMonth)
    requires OnCalendar(a) && OnCalendar(b)
    ensures Month(a) == Month(b) <==> a == b
    ensures Month(a) < Month(b) <==> a.year < b.year || (a.year == b.year && a.month < b.month)
    ensures Month(NextMonth(a)) == Month(a) + 1 && OnCalendar(NextMonth(a))
  {
    if a.year < b.year {
      assert (a.year + 1) * 12 <= b.year * 12;
    }
    if b.year < a.year {
      assert (b.year + 1) * 12 <= a.year * 12;
    }
  }

  /** The month an ordinal stands for. */
  function CalendarMonth(ordinal: nat): YearMonth
    requires ordinal >= 1
  {
    YearMonth((ordinal - 1) / 12, (ordinal - 1) % 12 + 1)
  }

  /** Ordinals from 1 on and calendar months are one to one: the sweep steps over no month
      and stops at none that is not on the calendar. */
  lemma {:induction false} OrdinalsAreMonths(ordinal: nat, at: YearMonth)
    requires ordinal >= 1 && OnCalendar(at)
    ensures OnCalendar(CalendarMonth(ordinal)) && Month(CalendarMonth(ordinal)) == ordinal
    ensures Month(at) >= 1 && CalendarMonth(Month(at)) == at
  {
    MonthIsExact(CalendarMonth(Month(at)), at);
  }

  datatype Span = Span(start: int, end: int)

  datatype HistoryError =
    | NotHeading(factId: string)
    | Unreadable(factId: string)
    | EndsBeforeStart(factId: string)
    | StaleWaiver
    | OffersAndWaives
    | LeftOut
    | Gap(previous: string, next: string)

  // ----- dated roles -----

  predicate IsDatedRole(facts: FactStore, id: string) {
    id in facts && facts[id].status.CanonicalFact? && ROLE_BLOCK_TAG in facts[id].tags
  }

  function StatedDates(fact: Fact): string {
    if fact.effectiveDates.Some? then fact.effectiveDates.value else ""
  }

  /** What one role fact states; `read` is the span pattern. */
  function RoleSpan(fact: Fact, read: string -> Option<(YearMonth, YearMonth)>): (span: Result<Span, HistoryError>)
    ensures span.Ok? ==> span.value.start <= span.value.end
  {
    if !fact.style.Heading? then Err(NotHeading(fact.factId))
    else
      match read(StatedDates(fact))
      case None => Err(Unreadable(fact.factId))
      case Some(pair) =>
        var (start, end) := pair;
        if Month(end) < Month(start) then Err(EndsBeforeStart(fact.factId)) else Ok(Span(Month(start), Month(end)))
  }

  /** A role has a span exactly when it is a heading and states dates that read as an interval. */
  lemma {:induction false} RoleSpanExactly(fact: Fact, read: string -> Option<(YearMonth, YearMonth)>)
    ensures RoleSpan(fact, read).Ok? <==>
      && fact.style.Heading? && read(StatedDates(fact)).Some?
      && Month(read(StatedDates(fact)).value.0) <= Month(read(StatedDates(fact)).value.1)
    ensures RoleSpan(fact, read).Ok? ==>
      && RoleSpan(fact, read).value.start == Month(read(StatedDates(fact)).value.0)
      && RoleSpan(fact, read).value.end == Month(read(StatedDates(fact)).value.1)
  {
  }

  /** Every canonical role's span, or the first in order of identity that has none. */
  method DatedRoles(facts: FactStore, ids: seq<string>, read: string -> Option<(YearMonth, YearMonth)>)
    returns (spans: Result<map<string, Span>, HistoryError>)
    requires ids == FactDigests.Sorted(ids) && forall id :: id in ids <==> id in facts
    ensures spans.Ok? <==> forall id :: IsDatedRole(facts, id) ==> RoleSpan(facts[id], read).Ok?
    ensures spans.Ok? ==> forall id :: id in spans.value <==>
      id in facts && facts[id].status.CanonicalFact? && "historical-title" in facts[id].tags
    ensures spans.Ok? ==> forall id :: IsDatedRole(facts, id) ==> RoleSpan(facts[id], read) == Ok(spans.value[id])
    ensures spans.Ok? ==> forall id :: id in spans.value ==> spans.value[id].start <= spans.value[id].end
    ensures spans.Err? ==> exists k ::
      && 0 <= k < |ids| && IsDatedRole(facts, ids[k]) && RoleSpan(facts[ids[k]], read) == Err(spans.error)
      && forall j :: 0 <= j < k ==> IsDatedRole(facts, ids[j]) ==> RoleSpan(facts[ids[j]], read).Ok?
  {
    var found: map<string, Span> := map[];
    for k := 0 to |ids|
      invariant forall id :: id in found ==> IsDatedRole(facts, id) && RoleSpan(facts[id], read) == Ok(found[id])
      invariant forall j :: 0 <= j < k ==> IsDatedRole(facts, ids[j]) ==> ids[j] in found
    {
      var id := ids[k];
      assert id in facts;
      if IsDatedRole(facts, id) {
        var span := RoleSpan(facts[id], read);
        if span.Err? {
          assert IsDatedRole(facts, ids[k]);
          return Err(span.error);
        }
        found := found[id := span.value];
      }
    }
    forall id | IsDatedRole(facts, id)
      ensures id in found
    {
      assert id in ids;
    }
    spans := Ok(found);
  }

  // ----- accounting -----

  lemma {:induction false} PartitionOf(carried: set<string>, waived: set<string>, all: set<string>)
    requires carried <= all && waived <= all && all - carried - waived == {}
    ensures carried + waived == all
  {
    forall id | id in all
      ensures id in carried + waived
    {
      assert id !in all - carried - waived;
    }
  }

  /** The dated roles offered and those waived must be a partition of the dated roles. */
  method RefuseUnaccountedRoles(pool: set<string>, waived: set<string>, spans: map<string, Span>)
    returns (offered: Result<set<string>, HistoryError>)
    ensures offered.Ok? <==> pool * spans.Keys !! waived && pool * spans.Keys + waived == spans.Keys
    ensures offered.Ok? ==> offered.value == pool * spans.Keys
    ensures offered.Err? ==> (offered.error.StaleWaiver? <==> !(waived <= spans.Keys))
    ensures offered.Err? ==> (offered.error.OffersAndWaives? <==> waived <= spans.Keys && waived * pool != {})
    ensures offered.Err? ==> (offered.error.LeftOut? <==> waived <= spans.Keys && waived * pool == {})
  {
    var carried := pool * spans.Keys;
    if !(waived <= spans.Keys) {
      return Err(StaleWaiver);
    }
    if waived * carried != {} {
      var both :| both in waived * carried;
      assert both in waived * pool;
      return Err(OffersAndWaives);
    }
    if spans.Keys - carried - waived != {} {
      assert waived * pool <= waived * carried;
      return Err(LeftOut);
    }
    assert waived * pool <= waived * carried;
    PartitionOf(carried, waived, spans.Keys);
    offered := Ok(carried);
  }

  // ----- the sweep -----

  predicate Covers(span: Span, month: int) {
    span.start <= month <= span.end
  }

  /** No offered role covers the month, though one had begun by then and one ends after. */
  ghost predicate InteriorGap(spans: map<string, Span>, offered: set<string>, month: int)
    requires offered <= spans.Keys
  {
    && (exists a :: a in offered && spans[a].start <= month)
    && (exists b :: b in offered && month <= spans[b].end)
    && (forall c :: c in offered ==> !Covers(spans[c], month))
  }

  /** The tuple order of `sorted`: by start, then end, then identity. */
  predicate InOrder(spans: map<string, Span>, a: string, b: string)
    requires a in spans && b in spans
  {
    if spans[a].start != spans[b].start then spans[a].start < spans[b].start
    else if spans[a].end != spans[b].end then spans[a].end < spans[b].end
    else a == b || FactDigests.Less(a, b)
  }

  ghost predicate ByStart(spans: map<string, Span>, ids: seq<string>)
    requires forall id :: id in ids ==> id in spans
  {
    forall i, j :: 0 <= i < j < |ids| ==> spans[ids[i]].start <= spans[ids[j]].start
  }

  method InsertRole(spans: map<string, Span>, ids: seq<string>, id: string) returns (longer: seq<string>)
    requires id in spans && (forall x :: x in ids ==> x in spans) && ByStart(spans, ids)
    ensures forall x :: x in longer <==> x == id || x in ids
    ensures forall x :: x in longer ==> x in spans
    ensures ByStart(spans, longer)
  {
    var k := 0;
    while k < |ids| && InOrder(spans, ids[k], id)
      invariant 0 <= k <= |ids|
      invariant forall j :: 0 <= j < k ==> spans[ids[j]].start <= spans[id].start
    {
      k := k + 1;
    }
    assert ids == ids[..k] + ids[k..];
    longer := ids[..k] + [id] + ids[k..];
    assert k < |ids| ==> spans[id].start <= spans[ids[k]].start;
  }

  method SortRoles(spans: map<string, Span>, offered: set<string>) returns (ordered: seq<string>)
    requires offered <= spans.Keys
    ensures forall id :: id in ordered <==> id in offered
    ensures forall id :: id in ordered ==> id in spans
    ensures ByStart(spans, ordered)
  {
    ordered := [];
    var todo := offered;
    while todo != {}
      invariant todo <= offered
      invariant forall id :: id in ordered <==> id in offered - todo
      invariant forall id :: id in ordered ==> id in spans
      invariant ByStart(spans, ordered)
      decreases todo
    {
      var id :| id in todo;
      ordered := InsertRole(spans, ordered, id);
      todo := todo - {id};
    }
  }

  /** Accepts exactly the histories without an interior gap, however the spans nest or
      overlap; what it names when it refuses are the roles around one. */
  method RefuseInteriorGap(spans: map<string, Span>, offered: set<string>) returns (error: Option<HistoryError>)
    requires offered <= spans.Keys && forall id :: id in offered ==> spans[id].start <= spans[id].end
    ensures error.None? <==> forall month :: !InteriorGap(spans, offered, month)
    ensures error.Some? ==>
      && error.value.Gap? && error.value.previous in offered && error.value.next in offered
      && InteriorGap(spans, offered, spans[error.value.next].start - 1)
      && spans[error.value.previous].start < spans[error.value.next].start
  {
    var ordered := SortRoles(spans, offered);
    if ordered == [] {
      NoRolesNoGap(spans, offered, ordered);
      return None;
    }
    assert ordered[0] in ordered;
    var coveredTo, previous := spans[ordered[0]].end, ordered[0];
    for k := 1 to |ordered|
      invariant previous == ordered[k - 1]
      invariant SweptTo(spans, ordered[..k], coveredTo)
    {
      var id := ordered[k];
      assert id in ordered && ordered[k - 1] in ordered;
      SweepStep(spans, ordered, k, coveredTo);
      if spans[id].start > coveredTo + 1 {
        HoleBefore(spans, offered, ordered, k, coveredTo);
        return Some(Gap(previous, id));
      }
      coveredTo := if spans[id].end > coveredTo then spans[id].end else coveredTo;
      previous := id;
    }
    assert ordered[..|ordered|] == ordered;
    SweptHasNoGap(spans, offered, ordered, coveredTo);
    error := None;
  }

  ghost predicate CoveredBy(spans: map<string, Span>, ids: seq<string>, month: int)
    requires forall id :: id in ids ==> id in spans
  {
    exists k :: 0 <= k < |ids| && Covers(spans[ids[k]], month)
  }

  // ----- the history on the calendar -----

  type Dates = (YearMonth, YearMonth)

  predicate NotAfter(a: YearMonth, b: YearMonth) {
    a.year < b.year || (a.year == b.year && a.month <= b.month)
  }

  predicate During(dates: Dates, at: YearMonth) {
    NotAfter(dates.0, at) && NotAfter(at, dates.1)
  }

  /** A month of the calendar that no offered role covers, though one had begun by then and
      one ends after. */
  ghost predicate CalendarGap(history: map<string, Dates>, offered: set<string>, at: YearMonth)
    requires offered <= history.Keys
  {
    && OnCalendar(at)
    && (exists a :: a in offered && NotAfter(history[a].0, at))
    && (exists b :: b in offered && NotAfter(at, history[b].1))
    && (forall c :: c in offered ==> !During(history[c], at))
  }

  /** The dates behind the spans. */
  ghost predicate SpansOf(history: map<string, Dates>, spans: map<string, Span>) {
    && spans.Keys == history.Keys
    && forall id :: id in history ==>
         && OnCalendar(history[id].0) && OnCalendar(history[id].1)
         && spans[id] == Span(Month(history[id].0), Month(history[id].1))
  }

  lemma {:induction false} NotAfterByOrdinal(a: YearMonth, b: YearMonth)
    requires OnCalendar(a) && OnCalendar(b)
    ensures NotAfter(a, b) <==> Month(a) <= Month(b)
  {
    MonthIsExact(a, b);
  }

  lemma {:induction false} GapAtMonth(
      history: map<string, Dates>, spans: map<string, Span>, offered: set<string>, at: YearMonth)
    requires SpansOf(history, spans) && offered <= spans.Keys && OnCalendar(at)
    ensures CalendarGap(history, offered, at) <==> InteriorGap(spans, offered, Month(at))
  {
    forall id | id in offered
      ensures NotAfter(history[id].0, at) <==> spans[id].start <= Month(at)
      ensures NotAfter(at, history[id].1) <==> Month(at) <= spans[id].end
    {
      NotAfterByOrdinal(history[id].0, at);
      NotAfterByOrdinal(at, history[id].1);
    }
  }

  /** The dates the pattern read for each dated role. */
  lemma {:induction false} DatesBehind(facts: FactStore, read: string -> Option<Dates>, spans: map<string, Span>)
    returns (history: map<string, Dates>)
    requires forall id :: id in spans ==> id in facts && RoleSpan(facts[id], read) == Ok(spans[id])
    requires forall text :: read(text).Some? ==> OnCalendar(read(text).value.0) && OnCalendar(read(text).value.1)
    ensures history.Keys == spans.Keys && SpansOf(history, spans)
    ensures forall id :: id in history ==> read(StatedDates(facts[id])) == Some(history[id])
  {
    history := map id | id in spans :: DatesOf(facts[id], read, spans[id]);
  }

  function DatesOf(fact: Fact, read: string -> Option<Dates>, span: Span): (dates: Dates)
    requires RoleSpan(fact, read) == Ok(span)
    ensures read(StatedDates(fact)) == Some(dates) && span == Span(Month(dates.0), Month(dates.1))
  {
    read(StatedDates(fact)).value
  }

  /** When the pattern reads months 01..12, the sweep finds a hole in the dated roles exactly
      when a month of the calendar is one. */
  lemma {:induction false} HolesAreCalendarMonths(
      facts: FactStore, read: string -> Option<Dates>, spans: map<string, Span>, offered: set<string>)
    returns (history: map<string, Dates>)
    requires forall id :: id in spans ==> id in facts && RoleSpan(facts[id], read) == Ok(spans[id])
    requires forall text :: read(text).Some? ==> OnCalendar(read(text).value.0) && OnCalendar(read(text).value.1)
    requires offered <= spans.Keys
    ensures history.Keys == spans.Keys
    ensures forall id :: id in history ==> read(StatedDates(facts[id])) == Some(history[id])
    ensures (exists month :: InteriorGap(spans, offered, month)) <==> exists at :: CalendarGap(history, offered, at)
  {
    history := DatesBehind(facts, read, spans);
    HolesMatch(history, spans, offered);
  }

  lemma {:induction false} HolesMatch(history: map<string, Dates>, spans: map<string, Span>, offered: set<string>)
    requires SpansOf(history, spans) && offered <= spans.Keys
    ensures (exists month :: InteriorGap(spans, offered, month)) <==> exists at :: CalendarGap(history, offered, at)
  {
    if month :| InteriorGap(spans, offered, month) {
      var a :| a in offered && spans[a].start <= month;
      OrdinalsAreMonths(month, history[a].0);
      GapAtMonth(history, spans, offered, CalendarMonth(month));
    }
    if at :| CalendarGap(history, offered, at) {
      GapAtMonth(history, spans, offered, at);
    }
  }

  /** Every month from the first start to `coveredTo` is covered, and none after it. */
  ghost predicate SweptTo(spans: map<string, Span>, ids: seq<string>, coveredTo: int) {
    && ids != [] && (forall id :: id in ids ==> id in spans)
    && (forall month :: spans[ids[0]].start <= month <= coveredTo ==> CoveredBy(spans, ids, month))
    && (forall k :: 0 <= k < |ids| ==> spans[ids[k]].end <= coveredTo)
    && spans[ids[0]].start <= coveredTo
  }

  lemma {:induction false} NoRolesNoGap(spans: map<string, Span>, offered: set<string>, ordered: seq<string>)
    requires offered <= spans.Keys && ordered == [] && forall id :: id in ordered <==> id in offered
    ensures forall month :: !InteriorGap(spans, offered, month)
  {
  }

  lemma {:induction false} SweepStep(spans: map<string, Span>, ordered: seq<string>, k: nat, coveredTo: int)
    requires 0 < k < |ordered| && SweptTo(spans, ordered[..k], coveredTo)
    requires (forall id :: id in ordered ==> id in spans) && spans[ordered[k]].start <= spans[ordered[k]].end
    ensures var id := ordered[k];
            spans[id].start <= coveredTo + 1 ==>
              SweptTo(spans, ordered[..k + 1], if spans[id].end > coveredTo then spans[id].end else coveredTo)
  {
    var id := ordered[k];
    var longer := ordered[..k + 1];
    assert longer == ordered[..k] + [id];
    var to := if spans[id].end > coveredTo then spans[id].end else coveredTo;
    if spans[id].start <= coveredTo + 1 {
      forall month | spans[longer[0]].start <= month <= to
        ensures CoveredBy(spans, longer, month)
      {
        if month <= coveredTo {
          assert CoveredBy(spans, ordered[..k], month);
          var j :| 0 <= j < k && Covers(spans[ordered[..k][j]], month);
          assert Covers(spans[longer[j]], month);
        } else {
          assert Covers(spans[longer[k]], month);
        }
      }
    }
  }

  lemma {:induction false} HoleBefore(
      spans: map<string, Span>, offered: set<string>, ordered: seq<string>, k: nat, coveredTo: int)
    requires 0 < k < |ordered| && offered <= spans.Keys && forall id :: id in ordered <==> id in offered
    requires (forall id :: id in ordered ==> id in spans) && ByStart(spans, ordered)
    requires forall id :: id in offered ==> spans[id].start <= spans[id].end
    requires SweptTo(spans, ordered[..k], coveredTo) && spans[ordered[k]].start > coveredTo + 1
    ensures InteriorGap(spans, offered, spans[ordered[k]].start - 1)
    ensures spans[ordered[k - 1]].start < spans[ordered[k]].start
  {
    var month := spans[ordered[k]].start - 1;
    assert ordered[..k][0] == ordered[0] && ordered[0] in offered && ordered[k] in offered;
    forall c | c in offered
      ensures !Covers(spans[c], month)
    {
      var j :| 0 <= j < |ordered| && ordered[j] == c;
      if j < k {
        assert ordered[..k][j] == c;
      }
    }
    assert ordered[..k][k - 1] == ordered[k - 1] && ordered[k - 1] in offered;
  }

  lemma {:induction false} SweptHasNoGap(
      spans: map<string, Span>, offered: set<string>, ordered: seq<string>, coveredTo: int)
    requires offered <= spans.Keys && forall id :: id in ordered <==> id in offered
    requires (forall id :: id in ordered ==> id in spans) && ByStart(spans, ordered)
    requires SweptTo(spans, ordered, coveredTo)
    ensures forall month :: !InteriorGap(spans, offered, month)
  {
    forall month
      ensures !InteriorGap(spans, offered, month)
    {
      if (exists a :: a in offered && spans[a].start <= month) && (exists b :: b in offered && month <= spans[b].end) {
        var a :| a in offered && spans[a].start <= month;
        var b :| b in offered && month <= spans[b].end;
        var i :| 0 <= i < |ordered| && ordered[i] == a;
        var j :| 0 <= j < |ordered| && ordered[j] == b;
        assert spans[ordered[0]].start <= spans[a].start;
        assert CoveredBy(spans, ordered, month);
        var k :| 0 <= k < |ordered| && Covers(spans[ordered[k]], month);
        assert ordered[k] in offered && Covers(spans[ordered[k]], month);
      }
    }
  }
}
