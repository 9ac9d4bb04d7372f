/**
 Grouping statements into one row per (period_end, filing_type): `_normalize_financial_rows`. The theorems say that the
 rows partition the statements, that each row shows the newest statement of its group, and exactly when the row order
 does not depend on the order in which the database returned the statements.
 */
module StatementGroups {
  import opened Financials
  import Grouping
  import opened Ordering
  import opened Text
  import opened Wrappers

  datatype GroupKey = GroupKey(periodEnd: int, filingType: string)

  datatype Row = Row(
    statementIds: seq<int>, accession: Option<string>, periodStart: int, periodEnd: int, filingType: string,
    statementType: string, source: string, acceptedAt: Option<int>, lastUpdated: int, lastChecked: Option<int>,
    restated: bool, numbers: map<string, real>)

  function KeyOf(s: Statement): GroupKey {
    GroupKey(s.periodEnd, s.filingType)
  }

  function RowKey(r: Row): GroupKey {
    GroupKey(r.periodEnd, r.filingType)
  }

  /** The sort key (last_updated, id) of `_normalize_financial_rows`. */
  predicate RevisedBefore(a: Statement, b: Statement) {
    a.lastUpdated < b.lastUpdated || (a.lastUpdated == b.lastUpdated && a.id <= b.id)
  }

  predicate EndsBefore(a: Row, b: Row) {
    a.periodEnd <= b.periodEnd
  }

  function CountOf(s: string, c: char): nat {
    if s == [] then 0 else (if s[0] == c then 1 else 0) + CountOf(s[1..], c)
  }

  function FirstAccession(segments: seq<string>): Option<string> {
    if segments == [] then None
    else if |segments[0]| == 20 && CountOf(segments[0], '-') == 2 then Some(segments[0])
    else FirstAccession(segments[1..])
  }

  function ExtractAccession(source: string): Option<string> {
    if source == "" then None else FirstAccession(Split(source, '/'))
  }

  /** The statements of one group, in input order. */
  function Group(statements: seq<Statement>, key: GroupKey): seq<Statement> {
    Grouping.Group(KeyOf, statements, key)
  }

  function Ids(statements: seq<Statement>): (r: seq<int>)
    ensures |r| == |statements| && forall i :: 0 <= i < |r| ==> r[i] == statements[i].id
  {
    seq(|statements|, i requires 0 <= i < |statements| => statements[i].id)
  }

  /** How the group's data print. */
  function Variants(statements: seq<Statement>): set<string> {
    set s | s in statements :: s.data.text
  }

  function MakeRow(group: seq<Statement>): Row
    requires group != []
  {
    var revisions := SortBy(RevisedBefore, group);
    SortMembers(RevisedBefore, group);
    var latest := revisions[|revisions| - 1];
    Row(Ids(revisions), ExtractAccession(latest.source), latest.periodStart, latest.periodEnd, latest.filingType,
        latest.statementType, latest.source, latest.acceptedAt, latest.lastUpdated, latest.lastChecked,
        |Variants(revisions)| > 1, latest.data.numbers)
  }

  /** The group keys in order of first appearance, the insertion order of the dictionary. */
  function KeyOrder(statements: seq<Statement>): (r: seq<GroupKey>)
    ensures Distinct(r)
    ensures forall k :: k in r <==> exists s :: s in statements && KeyOf(s) == k
  {
    Grouping.KeyOrder(KeyOf, statements)
  }

  lemma GroupNotEmpty(statements: seq<Statement>, key: GroupKey)
    requires key in KeyOrder(statements)
    ensures Group(statements, key) != []
  {
    Grouping.GroupNotEmpty(KeyOf, statements, key);
  }

  function GroupRows(statements: seq<Statement>, keys: seq<GroupKey>): (r: seq<Row>)
    requires forall k :: k in keys ==> Group(statements, k) != []
    ensures |r| == |keys| && forall i :: 0 <= i < |keys| ==> r[i] == MakeRow(Group(statements, keys[i]))
  {
    seq(|keys|, i requires 0 <= i < |keys| => MakeRow(Group(statements, keys[i])))
  }

  function RowsInKeyOrder(statements: seq<Statement>): (r: seq<Row>)
    ensures |r| == |KeyOrder(statements)|
  {
    assert forall k :: k in KeyOrder(statements) ==> Group(statements, k) != [] by {
      forall k | k in KeyOrder(statements) ensures Group(statements, k) != [] { GroupNotEmpty(statements, k); }
    }
    GroupRows(statements, KeyOrder(statements))
  }

  function Normalized(statements: seq<Statement>): seq<Row> {
    SortBy(EndsBefore, RowsInKeyOrder(statements))
  }

  /** The dictionary of groups and its insertion order. */
  method GroupStatements(statements: seq<Statement>)
    returns (grouped: map<GroupKey, seq<Statement>>, order: seq<GroupKey>)
    ensures order == KeyOrder(statements)
    ensures forall k :: k in order ==> k in grouped && grouped[k] == Group(statements, k)
  {
    grouped, order := Grouping.GroupBy(KeyOf, statements);
  }

  method NormalizeFinancialRows(statements: seq<Statement>) returns (rows: seq<Row>)
    ensures rows == Normalized(statements)
  {
    hide Group, KeyOrder, MakeRow;
    var grouped, order := GroupStatements(statements);
    rows := [];
    for i := 0 to |order|
      invariant rows == RowsInKeyOrder(statements)[..i]
    {
      GroupNotEmpty(statements, order[i]);
      rows := rows + [MakeRow(grouped[order[i]])];
    }
    assert rows == RowsInKeyOrder(statements);
    rows := SortBy(EndsBefore, rows);
  }

  // ----- what a row shows -----

  ghost predicate UniqueStatementIds(statements: seq<Statement>) {
    forall i, j :: 0 <= i < j < |statements| ==> statements[i].id != statements[j].id
  }

  predicate Shows(r: Row, s: Statement) {
    r.periodStart == s.periodStart && r.periodEnd == s.periodEnd && r.filingType == s.filingType &&
    r.statementType == s.statementType && r.source == s.source && r.accession == ExtractAccession(s.source) &&
    r.acceptedAt == s.acceptedAt && r.lastUpdated == s.lastUpdated && r.lastChecked == s.lastChecked &&
    r.numbers == s.data.numbers
  }

  /** A segment of twenty characters, two of them dashes. */
  predicate LooksLikeAccession(segment: string) {
    |segment| == 20 && |Filter((c: char) => c == '-', segment)| == 2
  }

  lemma {:induction false} CountsDashes(s: string)
    ensures CountOf(s, '-') == |Filter((c: char) => c == '-', s)|
  {
    if s != [] { CountsDashes(s[1..]); }
  }

  lemma {:induction false} FirstAccessionMeaning(segments: seq<string>)
    ensures FirstAccession(segments).None? <==> forall x :: x in segments ==> !LooksLikeAccession(x)
    ensures FirstAccession(segments).Some? ==>
              exists i :: 0 <= i < |segments| && FirstAccession(segments) == Some(segments[i]) &&
                LooksLikeAccession(segments[i]) && forall j :: 0 <= j < i ==> !LooksLikeAccession(segments[j])
  {
    hide CountOf, Filter;
    if segments != [] {
      CountsDashes(segments[0]);
      FirstAccessionMeaning(segments[1..]);
      assert segments[0] in segments;
      if !LooksLikeAccession(segments[0]) && FirstAccession(segments).Some? {
        var i :| 0 <= i < |segments[1..]| && FirstAccession(segments) == Some(segments[1..][i]) &&
          LooksLikeAccession(segments[1..][i]) && forall j :: 0 <= j < i ==> !LooksLikeAccession(segments[1..][j]);
        forall j | 0 <= j < i + 1 ensures !LooksLikeAccession(segments[j]) {
          if j > 0 { assert segments[j] == segments[1..][j - 1]; }
        }
        assert segments[i + 1] == segments[1..][i];
      }
    }
  }

  /** The accession number of a row is the first segment of its source that looks like one. */
  lemma AccessionMeaning(source: string)
    ensures ExtractAccession(source).None? <==> forall x :: x in Split(source, '/') ==> !LooksLikeAccession(x)
    ensures ExtractAccession(source).Some? ==>
              var segments := Split(source, '/');
              exists i :: 0 <= i < |segments| && ExtractAccession(source) == Some(segments[i]) &&
                LooksLikeAccession(segments[i]) && forall j :: 0 <= j < i ==> !LooksLikeAccession(segments[j])
  {
    hide LooksLikeAccession, FirstAccession;
    FirstAccessionMeaning(Split(source, '/'));
    if source == "" { NoAccession(); }
  }

  lemma NoAccession()
    ensures forall x :: x in Split("", '/') ==> !LooksLikeAccession(x)
  {
    assert Split("", '/') == [""];
  }

  /** `s` is the newest statement of its group by (last_updated, id). */
  ghost predicate NewestOf(s: Statement, statements: seq<Statement>, key: GroupKey) {
    s in statements && KeyOf(s) == key &&
    forall t :: t in statements && KeyOf(t) == key ==>
      t.lastUpdated <= s.lastUpdated && (t.lastUpdated == s.lastUpdated ==> t.id <= s.id)
  }

  /** What the row of `key` has to say about the statements. */
  ghost predicate Summarises(r: Row, statements: seq<Statement>, key: GroupKey) {
    RowKey(r) == key &&
    (forall id :: id in r.statementIds <==> exists s :: s in statements && KeyOf(s) == key && s.id == id) &&
    (exists s :: NewestOf(s, statements, key) && Shows(r, s)) &&
    (r.restated <==> exists s, t ::
      s in statements && t in statements && KeyOf(s) == key && KeyOf(t) == key && s.data.text != t.data.text)
  }

  lemma RevisionOrder()
    ensures Total(RevisedBefore) && Transitive(RevisedBefore)
  {
  }

  lemma LastIsNewest(group: seq<Statement>)
    requires group != []
    ensures var revisions := SortBy(RevisedBefore, group);
            |revisions| == |group| && revisions[|revisions| - 1] in group &&
            (forall s :: s in group <==> s in revisions) &&
            forall t :: t in group ==> RevisedBefore(t, revisions[|revisions| - 1])
  {
    RevisionOrder();
    SortSorts(RevisedBefore, group);
    SortMembers(RevisedBefore, group);
    var revisions := SortBy(RevisedBefore, group);
    var last := revisions[|revisions| - 1];
    assert last in revisions;
    forall t | t in group ensures RevisedBefore(t, last) {
      var i :| 0 <= i < |revisions| && revisions[i] == t;
    }
  }

  lemma MoreThanOne<T(!new)>(xs: set<T>)
    ensures |xs| > 1 <==> exists a, b :: a in xs && b in xs && a != b
  {
    if a, b :| a in xs && b in xs && a != b {
      assert {a, b} <= xs;
      SubsetSize({a, b}, xs);
    }
    if |xs| > 1 {
      var a :| a in xs;
      var rest := xs - {a};
      assert |rest| > 0;
      var b :| b in rest;
    }
  }

  lemma {:induction false} SubsetSize<T>(a: set<T>, b: set<T>)
    requires a <= b
    ensures |a| <= |b|
  {
    if a != {} {
      var x :| x in a;
      SubsetSize(a - {x}, b - {x});
    }
  }

  lemma RestatedMeaning(group: seq<Statement>)
    requires group != []
    ensures MakeRow(group).restated <==> exists s, t :: s in group && t in group && s.data.text != t.data.text
  {
    hide SortBy, ExtractAccession;
    LastIsNewest(group);
    var revisions := SortBy(RevisedBefore, group);
    var variants := Variants(revisions);
    MoreThanOne(variants);
    if a, b :| a in variants && b in variants && a != b {
      var s :| s in revisions && s.data.text == a;
      var t :| t in revisions && t.data.text == b;
      assert s in group && t in group;
    }
    if s, t :| s in group && t in group && s.data.text != t.data.text {
      assert s.data.text in variants && t.data.text in variants;
    }
  }

  lemma RowIdsMeaning(group: seq<Statement>, id: int)
    requires group != []
    ensures id in MakeRow(group).statementIds <==> exists s :: s in group && s.id == id
  {
    hide SortBy, ExtractAccession;
    LastIsNewest(group);
    var revisions := SortBy(RevisedBefore, group);
    assert MakeRow(group).statementIds == Ids(revisions);
    if s :| s in group && s.id == id {
      var i :| 0 <= i < |revisions| && revisions[i] == s;
      assert Ids(revisions)[i] == id;
    }
  }

  lemma RowShowsNewest(group: seq<Statement>) returns (latest: Statement)
    requires group != []
    ensures latest in group && Shows(MakeRow(group), latest)
    ensures forall t :: t in group ==> RevisedBefore(t, latest)
  {
    hide SortBy, ExtractAccession;
    LastIsNewest(group);
    var revisions := SortBy(RevisedBefore, group);
    latest := revisions[|revisions| - 1];
  }

  lemma RowSummarises(statements: seq<Statement>, key: GroupKey)
    requires Group(statements, key) != []
    ensures Summarises(MakeRow(Group(statements, key)), statements, key)
  {
    var group := Group(statements, key);
    GroupMembers(statements, key);
    hide MakeRow, Group;
    var latest := RowShowsNewest(group);
    assert NewestOf(latest, statements, key);
    RestatedMeaning(group);
    forall id
      ensures id in MakeRow(group).statementIds <==> exists s :: s in statements && KeyOf(s) == key && s.id == id {
      RowIdsMeaning(group, id);
    }
  }

  lemma GroupMembers(statements: seq<Statement>, key: GroupKey)
    ensures forall s :: s in Group(statements, key) <==> s in statements && KeyOf(s) == key
  {
    Grouping.GroupMembers(KeyOf, statements, key);
  }

  // ----- the rows partition the statements -----

  /** Row `i` belongs to the `KeyOrder` entry at `j`, and conversely. */
  lemma RowsHaveKeys(statements: seq<Statement>)
    ensures forall r :: r in Normalized(statements) <==> r in RowsInKeyOrder(statements)
    ensures |Normalized(statements)| == |KeyOrder(statements)|
    ensures forall i :: 0 <= i < |KeyOrder(statements)| ==>
              Summarises(RowsInKeyOrder(statements)[i], statements, KeyOrder(statements)[i])
  {
    hide MakeRow, Group, SortBy, KeyOrder;
    SortMembers(EndsBefore, RowsInKeyOrder(statements));
    forall i | 0 <= i < |KeyOrder(statements)|
      ensures Summarises(RowsInKeyOrder(statements)[i], statements, KeyOrder(statements)[i])
    {
      GroupNotEmpty(statements, KeyOrder(statements)[i]);
      RowSummarises(statements, KeyOrder(statements)[i]);
    }
  }

  lemma RowKeysDistinct(rows: seq<Row>, statements: seq<Statement>)
    requires rows == RowsInKeyOrder(statements)
    ensures Distinct(rows)
    ensures forall r, q :: r in rows && q in rows && RowKey(r) == RowKey(q) ==> r == q
  {
    hide SortBy, MakeRow, Group, KeyOrder;
    RowsHaveKeys(statements);
    forall i, j | 0 <= i < j < |rows| ensures RowKey(rows[i]) != RowKey(rows[j]) {
      assert RowKey(rows[i]) == KeyOrder(statements)[i] && RowKey(rows[j]) == KeyOrder(statements)[j];
    }
    forall r, q | r in rows && q in rows && RowKey(r) == RowKey(q) ensures r == q {
      var i :| 0 <= i < |rows| && rows[i] == r;
      var j :| 0 <= j < |rows| && rows[j] == q;
    }
  }

  /** A permutation of distinct rows is distinct. */
  lemma NormalizedIsDistinct(statements: seq<Statement>)
    ensures Distinct(Normalized(statements))
    ensures forall r, q :: r in Normalized(statements) && q in Normalized(statements) && RowKey(r) == RowKey(q) ==>
            r == q
  {
    hide RowsInKeyOrder;
    var rows := RowsInKeyOrder(statements);
    RowKeysDistinct(rows, statements);
    SortPermutes(EndsBefore, rows);
    SortMembers(EndsBefore, rows);
    forall x ensures multiset(Normalized(statements))[x] <= 1 { MultiplicityOfDistinct(rows, x); }
    DistinctByMultiplicity(Normalized(statements));
  }

  /** The row a statement belongs to. */
  ghost predicate Holds(statements: seq<Statement>, s: Statement, i: int) {
    0 <= i < |Normalized(statements)| && s.id in Normalized(statements)[i].statementIds
  }

  /** The rows come in period order with distinct (period_end, filing_type), each summarising its group. */
  lemma RowsAreOrderedSummaries(statements: seq<Statement>)
    ensures Sorted(EndsBefore, Normalized(statements))
    ensures forall i, j :: 0 <= i < j < |Normalized(statements)| ==>
              Normalized(statements)[i].periodEnd <= Normalized(statements)[j].periodEnd
    ensures forall i, j :: 0 <= i < j < |Normalized(statements)| ==>
              RowKey(Normalized(statements)[i]) != RowKey(Normalized(statements)[j])
    ensures forall r :: r in Normalized(statements) ==> Summarises(r, statements, RowKey(r))
  {
    hide Normalized, RowsInKeyOrder, KeyOrder, Summarises, RowKey;
    var rows := Normalized(statements);
    NormalizedIsSorted(statements);
    RowsHaveKeys(statements);
    NormalizedIsDistinct(statements);
    forall r | r in rows ensures Summarises(r, statements, RowKey(r)) {
      var i :| 0 <= i < |RowsInKeyOrder(statements)| && RowsInKeyOrder(statements)[i] == r;
      SummaryHasKey(r, statements, KeyOrder(statements)[i]);
    }
  }

  lemma NormalizedIsSorted(statements: seq<Statement>)
    ensures Sorted(EndsBefore, Normalized(statements))
  {
    hide RowsInKeyOrder;
    SortSorts(EndsBefore, RowsInKeyOrder(statements));
  }

  lemma SummaryHasKey(r: Row, statements: seq<Statement>, key: GroupKey)
    requires Summarises(r, statements, key)
    ensures RowKey(r) == key
  {
  }

  lemma EveryKeyHasARow(statements: seq<Statement>, s: Statement) returns (i: nat)
    requires s in statements
    ensures i < |Normalized(statements)| && RowKey(Normalized(statements)[i]) == KeyOf(s)
  {
    hide SortBy, MakeRow, Group, RowsInKeyOrder, Normalized;
    RowsHaveKeys(statements);
    var keys := KeyOrder(statements);
    assert KeyOf(s) in keys;
    var k :| 0 <= k < |keys| && keys[k] == KeyOf(s);
    assert RowsInKeyOrder(statements)[k] in Normalized(statements);
    i :| 0 <= i < |Normalized(statements)| && Normalized(statements)[i] == RowsInKeyOrder(statements)[k];
  }

  /** Partition: every statement id is in exactly one row, that of its own key. */
  lemma EachStatementInOneRow(statements: seq<Statement>, s: Statement)
    requires UniqueStatementIds(statements) && s in statements
    ensures exists i :: Holds(statements, s, i) && RowKey(Normalized(statements)[i]) == KeyOf(s) &&
              forall j :: Holds(statements, s, j) ==> i == j
  {
    hide Normalized, KeyOrder;
    RowsAreOrderedSummaries(statements);
    var rows := Normalized(statements);
    var i := EveryKeyHasARow(statements, s);
    assert rows[i] in rows && s.id in rows[i].statementIds;
    forall j | Holds(statements, s, j) ensures i == j {
      assert rows[j] in rows && Summarises(rows[j], statements, RowKey(rows[j]));
      var t :| t in statements && KeyOf(t) == RowKey(rows[j]) && t.id == s.id;
      assert t == s;
    }
    assert Holds(statements, s, i);
  }

  // ----- dependence on the database's row order -----

  /** No period end has two filing types. */
  ghost predicate OneFormPerPeriod(statements: seq<Statement>) {
    forall s, t :: s in statements && t in statements && s.periodEnd == t.periodEnd ==> s.filingType == t.filingType
  }

  lemma GroupForgetsOrder(s: seq<Statement>, t: seq<Statement>, key: GroupKey)
    requires multiset(s) == multiset(t) && UniqueStatementIds(s)
    ensures SortBy(RevisedBefore, Group(s, key)) == SortBy(RevisedBefore, Group(t, key))
  {
    RevisionOrder();
    Grouping.GroupPermutes(KeyOf, s, t, key);
    GroupMembers(s, key);
    forall a, b | a in Group(s, key) && b in Group(s, key) && RevisedBefore(a, b) && RevisedBefore(b, a)
      ensures a == b {
      var i :| 0 <= i < |s| && s[i] == a;
      var j :| 0 <= j < |s| && s[j] == b;
    }
    SortForgetsOrder(RevisedBefore, Group(s, key), Group(t, key));
  }

  lemma RowForgetsOrder(s: seq<Statement>, t: seq<Statement>, key: GroupKey)
    requires multiset(s) == multiset(t) && UniqueStatementIds(s) && Group(s, key) != [] && Group(t, key) != []
    ensures MakeRow(Group(s, key)) == MakeRow(Group(t, key))
  {
    hide SortBy, Group;
    GroupForgetsOrder(s, t, key);
  }

  /** The two orders give the same rows, perhaps in another order. */
  lemma SameRows(s: seq<Statement>, t: seq<Statement>, r: Row)
    requires multiset(s) == multiset(t) && UniqueStatementIds(s) && r in RowsInKeyOrder(s)
    ensures r in RowsInKeyOrder(t)
  {
    hide SortBy, Group, MakeRow, KeyOrder;
    SameMembers(s, t);
    var i :| 0 <= i < |RowsInKeyOrder(s)| && RowsInKeyOrder(s)[i] == r;
    var key := KeyOrder(s)[i];
    assert key in KeyOrder(s);
    var x :| x in s && KeyOf(x) == key;
    assert x in t && key in KeyOrder(t);
    var j :| 0 <= j < |KeyOrder(t)| && KeyOrder(t)[j] == key;
    GroupNotEmpty(s, key);
    GroupNotEmpty(t, key);
    RowForgetsOrder(s, t, key);
    assert RowsInKeyOrder(t)[j] == r;
  }

  lemma RowsPermute(s: seq<Statement>, t: seq<Statement>)
    requires multiset(s) == multiset(t) && UniqueStatementIds(s) && UniqueStatementIds(t)
    ensures multiset(RowsInKeyOrder(s)) == multiset(RowsInKeyOrder(t))
  {
    hide RowsInKeyOrder;
    var a, b := RowsInKeyOrder(s), RowsInKeyOrder(t);
    RowKeysDistinct(a, s);
    RowKeysDistinct(b, t);
    forall x ensures multiset(a)[x] == multiset(b)[x] {
      MultiplicityOfDistinct(a, x);
      MultiplicityOfDistinct(b, x);
      if x in a { SameRows(s, t, x); }
      if x in b { SameRows(t, s, x); }
    }
  }

  /** With one filing type per period, the rows do not depend on the order of the statements. */
  lemma RowsForgetOrder(s: seq<Statement>, t: seq<Statement>)
    requires multiset(s) == multiset(t) && UniqueStatementIds(s) && UniqueStatementIds(t) && OneFormPerPeriod(s)
    ensures Normalized(s) == Normalized(t)
  {
    hide RowsInKeyOrder;
    RowsPermute(s, t);
    var rows := RowsInKeyOrder(s);
    RowKeysDistinct(rows, s);
    forall a, b | a in rows && b in rows && EndsBefore(a, b) && EndsBefore(b, a) ensures a == b {
      var x := StatementOfRow(s, a);
      var y := StatementOfRow(s, b);
    }
    SortForgetsOrder(EndsBefore, rows, RowsInKeyOrder(t));
  }

  lemma StatementOfRow(statements: seq<Statement>, r: Row) returns (s: Statement)
    requires r in RowsInKeyOrder(statements)
    ensures s in statements && KeyOf(s) == RowKey(r)
  {
    hide SortBy, Group, MakeRow, KeyOrder, RowsInKeyOrder;
    RowsHaveKeys(statements);
    var i :| 0 <= i < |RowsInKeyOrder(statements)| && RowsInKeyOrder(statements)[i] == r;
    SummaryHasKey(r, statements, KeyOrder(statements)[i]);
    assert KeyOrder(statements)[i] in KeyOrder(statements);
    s :| s in statements && KeyOf(s) == RowKey(r);
  }

  // With two filing types in one period, whichever comes first in the input comes first in the output.

  lemma {:induction false} FirstKey(statements: seq<Statement>, n: nat)
    requires 0 < n <= |statements|
    ensures KeyOrder(statements[..n]) != [] && KeyOrder(statements[..n])[0] == KeyOf(statements[0])
  {
    Grouping.KeyOrderSnoc(KeyOf, statements, n - 1);
    if n > 1 { FirstKey(statements, n - 1); } else { assert statements[..0] == []; }
  }

  lemma FirstRow(statements: seq<Statement>)
    requires statements != []
    ensures RowsInKeyOrder(statements) != [] && RowKey(RowsInKeyOrder(statements)[0]) == KeyOf(statements[0])
  {
    assert statements[..|statements|] == statements;
    FirstKey(statements, |statements|);
    hide KeyOrder, RowsInKeyOrder;
    RowsHaveKeys(statements);
  }

  /** The first row of the first statement's period has that statement's filing type. */
  lemma FirstFormWins(statements: seq<Statement>)
    requires statements != []
    ensures var rows := Filter((r: Row) => r.periodEnd == statements[0].periodEnd, Normalized(statements));
            rows != [] && RowKey(rows[0]) == KeyOf(statements[0])
  {
    FirstRow(statements);
    hide RowsInKeyOrder;
    SortStable(EndsBefore, (r: Row) => r.periodEnd == statements[0].periodEnd, RowsInKeyOrder(statements));
  }

  function MovedFirst(statements: seq<Statement>, i: nat): seq<Statement>
    requires i < |statements|
  {
    [statements[i]] + statements[..i] + statements[i + 1..]
  }

  lemma MovedFirstPermutes(statements: seq<Statement>, i: nat)
    requires i < |statements|
    ensures multiset(MovedFirst(statements, i)) == multiset(statements)
  {
    assert statements == statements[..i] + [statements[i]] + statements[i + 1..];
  }

  /**
   The exact condition: the rows are the same for every order in which the statements may arrive if and only if no
   period end has two filing types.
   */
  lemma OrderIndependentExactlyWhenOneForm(s: seq<Statement>)
    requires UniqueStatementIds(s)
    ensures (forall t :: multiset(t) == multiset(s) ==> Normalized(t) == Normalized(s)) <==> OneFormPerPeriod(s)
  {
    hide Normalized;
    if OneFormPerPeriod(s) {
      forall t | multiset(t) == multiset(s) ensures Normalized(t) == Normalized(s) {
        PermutationKeepsDistinctKeys((x: Statement) => x.id, s, t);
        RowsForgetOrder(s, t);
      }
    } else {
      var a, b :| a in s && b in s && a.periodEnd == b.periodEnd && a.filingType != b.filingType;
      var i :| 0 <= i < |s| && s[i] == a;
      var j :| 0 <= j < |s| && s[j] == b;
      var t, u := MovedFirst(s, i), MovedFirst(s, j);
      MovedFirstPermutes(s, i);
      MovedFirstPermutes(s, j);
      FirstFormWins(t);
      FirstFormWins(u);
      assert t[0] == a && u[0] == b;
      assert Normalized(t) != Normalized(u);
    }
  }
}
