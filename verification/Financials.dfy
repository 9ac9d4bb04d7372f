/**
 The statement rows a company's models are computed from: the ordered and limited load, the deduplication by
 (period_start, period_end, filing_type), and the scan for the previous comparable statement. Dates and timestamps are
 integers in their own order.
 */
module Financials {
  import opened Ordering
  import opened Wrappers

  /** The JSON `data` column: how it prints, and its numeric entries. */
  datatype Payload = Payload(text: string, numbers: map<string, real>)

  datatype Statement = Statement(
    id: int, companyId: int, statementType: string, filingType: string, periodStart: int, periodEnd: int,
    source: string, lastUpdated: int, lastChecked: Option<int>, acceptedAt: Option<int>, data: Payload)

  datatype Point = Point(
    statementId: int, filingType: string, periodStart: int, periodEnd: int, source: string, lastUpdated: int,
    data: Payload)

  datatype PeriodKey = PeriodKey(periodStart: int, periodEnd: int, filingType: string)

  const CANONICAL_STATEMENT_TYPE := "canonical_xbrl"

  const ANNUAL_FORMS := {"10-K", "20-F", "40-F"}

  function Key(s: Statement): PeriodKey {
    PeriodKey(s.periodStart, s.periodEnd, s.filingType)
  }

  function PointKey(p: Point): PeriodKey {
    PeriodKey(p.periodStart, p.periodEnd, p.filingType)
  }

  function ToPoint(s: Statement): Point {
    Point(s.id, s.filingType, s.periodStart, s.periodEnd, s.source, s.lastUpdated, s.data)
  }

  /** ORDER BY period_end DESC, last_updated DESC, id DESC. */
  predicate LoadedBefore(a: Statement, b: Statement) {
    a.periodEnd > b.periodEnd ||
    (a.periodEnd == b.periodEnd &&
     (a.lastUpdated > b.lastUpdated || (a.lastUpdated == b.lastUpdated && a.id >= b.id)))
  }

  predicate Canonical(s: Statement, companyId: int) {
    s.companyId == companyId && s.statementType == CANONICAL_STATEMENT_TYPE
  }

  function AllCanonical(table: seq<Statement>, companyId: int): seq<Statement> {
    SortBy(LoadedBefore, Filter((s: Statement) => Canonical(s, companyId), table))
  }

  function LoadCanonical(table: seq<Statement>, companyId: int, limit: nat): seq<Statement> {
    var rows := AllCanonical(table, companyId);
    if limit < |rows| then rows[..limit] else rows
  }

  /** Row `i` is the first of its period key. */
  predicate FirstOfKey(rows: seq<Statement>, i: nat)
    requires i < |rows|
  {
    forall j :: 0 <= j < i ==> Key(rows[j]) != Key(rows[i])
  }

  /** The positions deduplication keeps, in order. */
  function Kept(rows: seq<Statement>): (r: seq<nat>)
    ensures forall k :: 0 <= k < |r| ==> r[k] < |rows| && FirstOfKey(rows, r[k])
    ensures forall k, l :: 0 <= k < l < |r| ==> r[k] < r[l]
    ensures forall i: nat :: i < |rows| && FirstOfKey(rows, i) ==> i in r
  {
    if rows == [] then [] else
      var n := |rows| - 1;
      var earlier := Kept(rows[..n]);
      assert forall i: nat :: i < n ==> FirstOfKey(rows[..n], i) == FirstOfKey(rows, i);
      if FirstOfKey(rows, n) then earlier + [n] else earlier
  }

  function Deduplicated(rows: seq<Statement>): (r: seq<Point>)
    ensures |r| == |Kept(rows)|
    ensures forall k :: 0 <= k < |r| ==> r[k] == ToPoint(rows[Kept(rows)[k]])
  {
    seq(|Kept(rows)|, k requires 0 <= k < |Kept(rows)| => ToPoint(rows[Kept(rows)[k]]))
  }

  lemma KeptPrefix(rows: seq<Statement>, n: nat)
    requires n < |rows|
    ensures Deduplicated(rows[..n + 1]) ==
            Deduplicated(rows[..n]) + if FirstOfKey(rows, n) then [ToPoint(rows[n])] else []
  {
    var prefix := rows[..n + 1];
    assert prefix[..n] == rows[..n];
    assert FirstOfKey(prefix, n) == FirstOfKey(rows, n);
    assert Kept(prefix) == Kept(rows[..n]) + if FirstOfKey(rows, n) then [n] else [];
  }

  method BuildFinancials(rows: seq<Statement>) returns (financials: seq<Point>)
    ensures financials == Deduplicated(rows)
  {
    var seen: set<PeriodKey> := {};
    financials := [];
    for i := 0 to |rows|
      invariant forall key :: key in seen <==> exists j :: 0 <= j < i && Key(rows[j]) == key
      invariant financials == Deduplicated(rows[..i])
    {
      var key := Key(rows[i]);
      KeptPrefix(rows, i);
      assert FirstOfKey(rows, i) <==> key !in seen;
      if key !in seen {
        seen := seen + {key};
        financials := financials + [ToPoint(rows[i])];
      }
    }
    assert rows[..|rows|] == rows;
  }

  lemma LoadOrder()
    ensures Total(LoadedBefore) && Transitive(LoadedBefore)
  {
  }

  lemma AllCanonicalFacts(table: seq<Statement>, companyId: int)
    ensures Sorted(LoadedBefore, AllCanonical(table, companyId))
    ensures forall r :: r in AllCanonical(table, companyId) <==> r in table && Canonical(r, companyId)
  {
    LoadOrder();
    var chosen := Filter((s: Statement) => Canonical(s, companyId), table);
    SortSorts(LoadedBefore, chosen);
    SortMembers(LoadedBefore, chosen);
  }

  lemma PrefixSplits(all: seq<Statement>, n: nat, r: Statement, s: Statement)
    requires Sorted(LoadedBefore, all) && n <= |all| && r in all && r !in all[..n] && s in all[..n]
    ensures LoadedBefore(s, r)
  {
    assert all == all[..n] + all[n..];
    var i :| 0 <= i < |all[n..]| && all[n..][i] == r;
    var j :| 0 <= j < n && all[j] == s;
    assert LoadedBefore(all[j], all[n + i]);
  }

  lemma LoadedIsSortedPrefix(table: seq<Statement>, companyId: int, limit: nat)
    ensures Sorted(LoadedBefore, LoadCanonical(table, companyId, limit))
    ensures forall r :: r in LoadCanonical(table, companyId, limit) ==> r in table && Canonical(r, companyId)
    ensures forall r, s :: r in table && Canonical(r, companyId) && r !in LoadCanonical(table, companyId, limit) ==>
              s in LoadCanonical(table, companyId, limit) ==> LoadedBefore(s, r)
  {
    hide SortBy, Filter, AllCanonical;
    AllCanonicalFacts(table, companyId);
    var all := AllCanonical(table, companyId);
    var rows := LoadCanonical(table, companyId, limit);
    assert rows == all[..|rows|];
    forall r, s | r in table && Canonical(r, companyId) && r !in rows && s in rows ensures LoadedBefore(s, r) {
      PrefixSplits(all, |rows|, r, s);
    }
  }

  /** `r` has no later period than `s`, nor in the same period a later update, nor then a greater id. */
  predicate NoNewerThan(r: Statement, s: Statement) {
    r.periodEnd <= s.periodEnd &&
    (r.periodEnd == s.periodEnd ==> r.lastUpdated <= s.lastUpdated) &&
    (r.periodEnd == s.periodEnd && r.lastUpdated == s.lastUpdated ==> r.id <= s.id)
  }

  /** A limited load has as many rows as the limit and the table allow, and cuts only rows no newer than those it
      keeps. */
  lemma LimitCutsTheOldest(table: seq<Statement>, companyId: int, limit: nat)
    ensures var all := |Filter((s: Statement) => Canonical(s, companyId), table)|;
            |LoadCanonical(table, companyId, limit)| == if limit < all then limit else all
    ensures forall s :: s in LoadCanonical(table, companyId, limit) ==>
              s in table && s.companyId == companyId && s.statementType == "canonical_xbrl" &&
              forall r :: r in table && r.companyId == companyId && r.statementType == "canonical_xbrl" ==>
                r in LoadCanonical(table, companyId, limit) || NoNewerThan(r, s)
  {
    hide SortBy, Filter;
    LoadedIsSortedPrefix(table, companyId, limit);
    CanonicalCount(table, companyId);
  }

  lemma CanonicalCount(table: seq<Statement>, companyId: int)
    ensures |AllCanonical(table, companyId)| == |Filter((s: Statement) => Canonical(s, companyId), table)|
  {
    SortMembers(LoadedBefore, Filter((s: Statement) => Canonical(s, companyId), table));
  }

  /** `row` is the newest of its period key in the whole table, by (last_updated, id). */
  ghost predicate NewestOfKey(table: seq<Statement>, companyId: int, row: Statement) {
    row in table && Canonical(row, companyId) &&
    forall other :: other in table && Canonical(other, companyId) && Key(other) == Key(row) ==>
      other.lastUpdated <= row.lastUpdated && (other.lastUpdated == row.lastUpdated ==> other.id <= row.id)
  }

  /** `p` carries what the row says. */
  predicate Carries(p: Point, row: Statement) {
    p.statementId == row.id && p.filingType == row.filingType && p.periodStart == row.periodStart &&
    p.periodEnd == row.periodEnd && p.source == row.source && p.lastUpdated == row.lastUpdated && p.data == row.data
  }

  ghost predicate NewestPerKey(table: seq<Statement>, companyId: int, points: seq<Point>) {
    forall p :: p in points ==> exists row :: NewestOfKey(table, companyId, row) && Carries(p, row)
  }

  ghost predicate NewestFirst(points: seq<Point>) {
    forall k, l :: 0 <= k < l < |points| ==> points[k].periodEnd >= points[l].periodEnd
  }

  ghost predicate UniqueKeys(points: seq<Point>) {
    forall k, l :: 0 <= k < l < |points| ==> PointKey(points[k]) != PointKey(points[l])
  }

  lemma FirstLoadedIsNewest(table: seq<Statement>, companyId: int, limit: nat, i: nat)
    requires i < |LoadCanonical(table, companyId, limit)|
    requires FirstOfKey(LoadCanonical(table, companyId, limit), i)
    ensures NewestOfKey(table, companyId, LoadCanonical(table, companyId, limit)[i])
  {
    var rows := LoadCanonical(table, companyId, limit);
    LoadedIsSortedPrefix(table, companyId, limit);
    forall other | other in table && Canonical(other, companyId) && Key(other) == Key(rows[i])
      ensures LoadedBefore(rows[i], other) && other.periodEnd == rows[i].periodEnd
    {
      if other in rows {
        var j :| 0 <= j < |rows| && rows[j] == other;
        assert i <= j;
      }
    }
  }

  lemma DeduplicatedOrder(rows: seq<Statement>)
    requires Sorted(LoadedBefore, rows)
    ensures UniqueKeys(Deduplicated(rows)) && NewestFirst(Deduplicated(rows))
  {
    var points, kept := Deduplicated(rows), Kept(rows);
    forall k, l | 0 <= k < l < |points|
      ensures PointKey(points[k]) != PointKey(points[l]) && points[k].periodEnd >= points[l].periodEnd
    {
      assert FirstOfKey(rows, kept[l]) && kept[k] < kept[l];
      assert LoadedBefore(rows[kept[k]], rows[kept[l]]);
    }
  }

  /**
   The series built from a limited load: unique keys, newest period first, each point the newest row of its key in
   the whole table (so the limit never cuts a newer revision), and every loaded key present.
   */
  lemma DatasetSeries(table: seq<Statement>, companyId: int, limit: nat)
    ensures UniqueKeys(Deduplicated(LoadCanonical(table, companyId, limit)))
    ensures NewestFirst(Deduplicated(LoadCanonical(table, companyId, limit)))
    ensures NewestPerKey(table, companyId, Deduplicated(LoadCanonical(table, companyId, limit)))
    ensures var rows := LoadCanonical(table, companyId, limit);
            forall i :: 0 <= i < |rows| ==> HasKey(Deduplicated(rows), Key(rows[i]))
  {
    var rows := LoadCanonical(table, companyId, limit);
    var points := Deduplicated(rows);
    LoadedIsSortedPrefix(table, companyId, limit);
    DeduplicatedOrder(rows);
    forall p | p in points ensures exists row :: NewestOfKey(table, companyId, row) && Carries(p, row) {
      var k :| 0 <= k < |points| && points[k] == p;
      FirstLoadedIsNewest(table, companyId, limit, Kept(rows)[k]);
    }
    forall i | 0 <= i < |rows| ensures HasKey(points, Key(rows[i])) {
      FirstRowOfKey(rows, i);
    }
  }

  ghost predicate HasKey(points: seq<Point>, key: PeriodKey) {
    exists k :: 0 <= k < |points| && PointKey(points[k]) == key
  }

  lemma {:induction false} FirstRowOfKey(rows: seq<Statement>, i: nat)
    requires i < |rows|
    ensures HasKey(Deduplicated(rows), Key(rows[i]))
  {
    if FirstOfKey(rows, i) {
      var k :| 0 <= k < |Kept(rows)| && Kept(rows)[k] == i;
      assert PointKey(Deduplicated(rows)[k]) == Key(rows[i]);
    } else {
      var j :| 0 <= j < i && Key(rows[j]) == Key(rows[i]);
      FirstRowOfKey(rows, j);
    }
  }

  predicate Annual(p: Point) {
    p.filingType in ANNUAL_FORMS
  }

  /** `p` is an earlier period of the same cadence as `current`. */
  predicate Comparable(p: Point, current: Point) {
    p.statementId != current.statementId && Annual(p) == Annual(current) && p.periodEnd < current.periodEnd
  }

  ghost predicate IsFirstComparable(financials: seq<Point>, current: Point, r: Option<Point>) {
    match r
    case None => forall i :: 0 <= i < |financials| ==> !Comparable(financials[i], current)
    case Some(p) =>
      exists i :: 0 <= i < |financials| && financials[i] == p && Comparable(p, current) &&
        forall j :: 0 <= j < i ==> !Comparable(financials[j], current)
  }

  method PreviousComparableStatement(financials: seq<Point>, current: Point) returns (r: Option<Point>)
    ensures IsFirstComparable(financials, current, r)
  {
    var currentIsAnnual := Annual(current);
    for i := 0 to |financials|
      invariant forall j :: 0 <= j < i ==> !Comparable(financials[j], current)
    {
      var point := financials[i];
      if point.statementId == current.statementId {
        continue;
      }
      if Annual(point) == currentIsAnnual && point.periodEnd < current.periodEnd {
        return Some(point);
      }
    }
    return None;
  }

  /** Both points are from annual forms, or neither is. */
  predicate SameCadence(p: Point, q: Point) {
    p.filingType in {"10-K", "20-F", "40-F"} <==> q.filingType in {"10-K", "20-F", "40-F"}
  }

  /** The latest period of `current`'s cadence that ended before it. */
  ghost predicate IsLatestEarlier(points: seq<Point>, current: Point, p: Point) {
    p in points && SameCadence(p, current) && p.periodEnd < current.periodEnd &&
    forall q :: q in points && SameCadence(q, current) && q.periodEnd < current.periodEnd ==>
      q.periodEnd <= p.periodEnd
  }

  /** Points of different periods come from different statements. */
  lemma SameIdSamePeriod(table: seq<Statement>, companyId: int, points: seq<Point>, p: Point, q: Point)
    requires forall s, t :: s in table && t in table && s.id == t.id ==> s == t
    requires NewestPerKey(table, companyId, points) && p in points && q in points && p.statementId == q.statementId
    ensures p == q
  {
    var s :| NewestOfKey(table, companyId, s) && Carries(p, s);
    var t :| NewestOfKey(table, companyId, t) && Carries(q, t);
  }

  lemma FirstComparableIsLatestEarlier(
      table: seq<Statement>, companyId: int, points: seq<Point>, current: Point, r: Option<Point>)
    requires forall s, t :: s in table && t in table && s.id == t.id ==> s == t
    requires NewestPerKey(table, companyId, points) && NewestFirst(points) && current in points
    requires IsFirstComparable(points, current, r)
    ensures r.None? ==> forall p :: p in points && SameCadence(p, current) ==> p.periodEnd >= current.periodEnd
    ensures r.Some? ==> IsLatestEarlier(points, current, r.value)
  {
    hide NewestPerKey;
    forall p | p in points && SameCadence(p, current) && p.periodEnd < current.periodEnd
      ensures Comparable(p, current)
    {
      if p.statementId == current.statementId { SameIdSamePeriod(table, companyId, points, p, current); }
    }
    if r.Some? {
      var i :| 0 <= i < |points| && points[i] == r.value && forall j :: 0 <= j < i ==> !Comparable(points[j], current);
      forall q | q in points && Comparable(q, current) ensures q.periodEnd <= r.value.periodEnd {
        var k :| 0 <= k < |points| && points[k] == q;
        assert i <= k;
      }
    }
  }

  /**
   On a company's series, for one of its own points, the first match is the same-cadence point with the greatest
   period end strictly before the current one; it is missing exactly when there is no earlier point of that cadence.
   The id test in the scan never matters.
   */
  lemma PreviousComparableIsLatestEarlier(
      table: seq<Statement>, companyId: int, limit: nat, current: Point, r: Option<Point>)
    requires forall s, t :: s in table && t in table && s.id == t.id ==> s == t
    requires current in Deduplicated(LoadCanonical(table, companyId, limit))
    requires IsFirstComparable(Deduplicated(LoadCanonical(table, companyId, limit)), current, r)
    ensures var points := Deduplicated(LoadCanonical(table, companyId, limit));
            && (r.None? <==> forall p :: p in points && SameCadence(p, current) ==>
              p.periodEnd >= current.periodEnd)
            && (r.Some? ==> IsLatestEarlier(points, current, r.value))
  {
    DatasetSeries(table, companyId, limit);
    FirstComparableIsLatestEarlier(table, companyId, Deduplicated(LoadCanonical(table, companyId, limit)), current, r);
  }
}
