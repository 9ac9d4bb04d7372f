/** What amendment chains guarantee: partition, numbering, links that lead back to the first filing, order
    independence. */
module ChainTheorems {
  import opened AmendmentChains
  import opened ChainKeys
  import opened Ordering
  import opened Wrappers

  ghost predicate DistinctAccessions(facts: seq<Facts>) {
    forall i, j :: 0 <= i < j < |facts| ==> facts[i].accession != facts[j].accession
  }

  /** Report `i` is at position `p` of the chain of `key`. */
  ghost predicate At(facts: seq<Facts>, key: string, p: int, i: nat) {
    0 <= p < |Chain(facts, key)| && Chain(facts, key)[p].index == i
  }

  /** Partition: every report is at exactly one position of exactly one chain, and its sequence says which. */
  lemma ExactlyOnePlace(facts: seq<Facts>, i: nat)
    requires i < |facts|
    ensures forall key, p :: At(facts, key, p, i) <==>
            key == LinkOf(facts, i).chainKey && p == LinkOf(facts, i).sequence - 1
    ensures LinkOf(facts, i).chainKey == BuildChainKey(facts[i])
    ensures LinkOf(facts, i).size == |Chain(facts, BuildChainKey(facts[i]))|
  {
    hide BuildChainKey, Chain;
    var own := BuildChainKey(facts[i]);
    ChainFacts(facts, own);
    var l := LinkOf(facts, i);
    var chain := Chain(facts, own);
    var q :| 0 <= q < |chain| && chain[q] == Entries(facts)[i] && l == LinkAt(chain, q);
    forall key, p ensures At(facts, key, p, i) <==> key == own && p == q {
      ChainFacts(facts, key);
      if At(facts, key, p, i) { assert Chain(facts, key)[p] in Chain(facts, key); }
    }
  }

  ghost predicate SamePlace(facts: seq<Facts>, i: nat, j: nat)
    requires i < |facts| && j < |facts|
  {
    LinkOf(facts, i).chainKey == LinkOf(facts, j).chainKey && LinkOf(facts, i).sequence == LinkOf(facts, j).sequence
  }

  /** The sequence numbers of a chain are exactly 1..size, each carried by exactly one report. */
  lemma SequencesAreOneToSize(facts: seq<Facts>, key: string, n: nat)
    ensures 1 <= n <= |Chain(facts, key)| <==>
            exists i :: 0 <= i < |facts| && LinkOf(facts, i).chainKey == key && LinkOf(facts, i).sequence == n
    ensures forall i, j :: 0 <= i < |facts| && 0 <= j < |facts| && SamePlace(facts, i, j) ==> i == j
  {
    hide BuildChainKey, Chain, LinkOf;
    ChainFacts(facts, key);
    if 1 <= n <= |Chain(facts, key)| {
      var i := Chain(facts, key)[n - 1].index;
      ExactlyOnePlace(facts, i);
      assert At(facts, key, n - 1, i);
    }
    if i :| 0 <= i < |facts| && LinkOf(facts, i).chainKey == key && LinkOf(facts, i).sequence == n {
      ExactlyOnePlace(facts, i);
      assert At(facts, key, n - 1, i);
    }
    forall i, j | 0 <= i < |facts| && 0 <= j < |facts| && SamePlace(facts, i, j) ensures i == j
    {
      ExactlyOnePlace(facts, i);
      ExactlyOnePlace(facts, j);
      assert At(facts, LinkOf(facts, i).chainKey, LinkOf(facts, i).sequence - 1, i);
      assert At(facts, LinkOf(facts, i).chainKey, LinkOf(facts, i).sequence - 1, j);
    }
  }

  // ----- dates -----

  /** The day a report counts as filed on: its filing date, or else its report date, or else the first day there is. */
  ghost predicate FiledOn(f: Facts, day: int) {
    (f.filingDate.Some? ==> day == f.filingDate.value) &&
    (f.filingDate.None? && f.reportDate.Some? ==> day == f.reportDate.value) &&
    (f.filingDate.None? && f.reportDate.None? ==> day == 1)
  }

  /** `f` was filed on an earlier day, or on the same day with an accession number no greater. */
  ghost predicate FiledNoLater(f: Facts, g: Facts) {
    forall d, e :: FiledOn(f, d) && FiledOn(g, e) ==> d < e || (d == e && LexLe(f.accession, g.accession))
  }

  lemma EntriesByFiling(facts: seq<Facts>, i: nat, j: nat)
    requires i < |facts| && j < |facts|
    ensures EntryLe(Entries(facts)[i], Entries(facts)[j]) <==> FiledNoLater(facts[i], facts[j])
  {
    hide BuildChainKey, LexLe;
    assert FiledOn(facts[i], EffectiveDate(facts[i])) && FiledOn(facts[j], EffectiveDate(facts[j]));
  }

  /** Within a chain the sequence follows the filing dates, accession numbers deciding between filings of one day. */
  lemma SequenceFollowsFiling(facts: seq<Facts>, i: nat, j: nat)
    requires i < |facts| && j < |facts| && LinkOf(facts, i).chainKey == LinkOf(facts, j).chainKey
    ensures LinkOf(facts, i).sequence < LinkOf(facts, j).sequence ==> FiledNoLater(facts[i], facts[j])
    ensures DistinctAccessions(facts) && i != j && FiledNoLater(facts[i], facts[j]) ==>
              LinkOf(facts, i).sequence < LinkOf(facts, j).sequence
  {
    hide BuildChainKey, Chain, LinkOf, EntryLe, FiledNoLater;
    var key := LinkOf(facts, i).chainKey;
    var p, q := LinkOf(facts, i).sequence - 1, LinkOf(facts, j).sequence - 1;
    ExactlyOnePlace(facts, i);
    ExactlyOnePlace(facts, j);
    assert At(facts, key, p, i) && At(facts, key, q, j);
    ChainFacts(facts, key);
    var chain := Chain(facts, key);
    assert chain[p] in chain && chain[q] in chain;
    EntriesByFiling(facts, i, j);
    if q <= p && i != j && FiledNoLater(facts[i], facts[j]) {
      assert q < p && EntryLe(chain[q], chain[p]);
      TiedEntries(chain[p], chain[q]);
    }
  }

  // ----- following the links -----

  /** The report with this accession number. */
  function Find(facts: seq<Facts>, accession: string, from: nat): (r: Option<nat>)
    ensures r.Some? ==> from <= r.value < |facts| && facts[r.value].accession == accession
    ensures r.None? ==> forall i :: from <= i < |facts| ==> facts[i].accession != accession
    decreases |facts| - from
  {
    if from >= |facts| then None
    else if facts[from].accession == accession then Some(from)
    else Find(facts, accession, from + 1)
  }

  /** Where `steps` links back from report `i` lead, looking each previous accession number up. */
  ghost function Walk(facts: seq<Facts>, i: nat, steps: nat): (r: Option<nat>)
    requires i < |facts|
    ensures r.Some? ==> r.value < |facts|
  {
    if steps == 0 then Some(i)
    else
      var at := Walk(facts, i, steps - 1);
      if at == None then None
      else
        var previous := LinkOf(facts, at.value).previous;
        if previous == None then None else Find(facts, previous.value, 0)
  }

  lemma {:induction false} PreviousIsOneEarlier(facts: seq<Facts>, i: nat)
    requires DistinctAccessions(facts) && i < |facts|
    ensures LinkOf(facts, i).previous == None <==> LinkOf(facts, i).sequence == 1
    ensures LinkOf(facts, i).sequence > 1 ==>
              var j := Find(facts, LinkOf(facts, i).previous.value, 0);
              j.Some? && LinkOf(facts, j.value).chainKey == LinkOf(facts, i).chainKey &&
              LinkOf(facts, j.value).sequence == LinkOf(facts, i).sequence - 1
  {
    hide BuildChainKey, Chain, LinkOf, Find;
    var l := LinkOf(facts, i);
    var key := BuildChainKey(facts[i]);
    var chain := Chain(facts, key);
    ExactlyOnePlace(facts, i);
    var q :| 0 <= q < |chain| && chain[q] == Entries(facts)[i] && l == LinkAt(chain, q);
    if q > 0 {
      ChainFacts(facts, key);
      assert chain[q - 1] in chain;
      var j := chain[q - 1].index;
      FindsByAccession(facts, j);
      ExactlyOnePlace(facts, j);
      assert At(facts, key, q - 1, j);
    }
  }

  lemma FindsByAccession(facts: seq<Facts>, j: nat)
    requires DistinctAccessions(facts) && j < |facts|
    ensures Find(facts, facts[j].accession, 0) == Some(j)
  {
    hide Find;
  }

  /** Following `previous` leads back through the chain one number at a time and ends at the first filing. */
  lemma {:induction false} LinksLeadToTheFirst(facts: seq<Facts>, i: nat, steps: nat)
    requires DistinctAccessions(facts) && i < |facts|
    ensures steps < LinkOf(facts, i).sequence ==>
              Walk(facts, i, steps).Some? &&
              LinkOf(facts, Walk(facts, i, steps).value).chainKey == LinkOf(facts, i).chainKey &&
              LinkOf(facts, Walk(facts, i, steps).value).sequence == LinkOf(facts, i).sequence - steps
    ensures steps == LinkOf(facts, i).sequence ==> Walk(facts, i, steps) == None
  {
    hide LinkOf, Find, IsLink, BuildChainKey, Chain, DistinctAccessions, At;
    if steps > 0 {
      LinksLeadToTheFirst(facts, i, steps - 1);
      if steps <= LinkOf(facts, i).sequence { PreviousIsOneEarlier(facts, Walk(facts, i, steps - 1).value); }
    } else {
      ExactlyOnePlace(facts, i);
      LinkIsNumbered(facts, i);
    }
  }

  lemma LinkIsNumbered(facts: seq<Facts>, i: nat)
    requires i < |facts|
    ensures LinkOf(facts, i).sequence >= 1
  {
  }

  // ----- order independence -----

  /** An entry without its position in the input. */
  function Bare(e: Entry): Entry {
    e.(index := 0)
  }

  function BareAll(s: seq<Entry>): (r: seq<Entry>)
    ensures |r| == |s| && forall i :: 0 <= i < |s| ==> r[i] == Bare(s[i])
  {
    seq(|s|, i requires 0 <= i < |s| => Bare(s[i]))
  }

  lemma BareConcat(a: seq<Entry>, b: seq<Entry>)
    ensures BareAll(a + b) == BareAll(a) + BareAll(b)
  {
  }

  lemma {:induction false} BareInsert(e: Entry, s: seq<Entry>)
    ensures BareAll(Insert(EntryLe, e, s)) == Insert(EntryLe, Bare(e), BareAll(s))
  {
    hide LexLe;
    if s != [] && !EntryLe(e, s[0]) {
      BareInsert(e, s[1..]);
      assert BareAll(s)[1..] == BareAll(s[1..]);
      BareConcat([s[0]], Insert(EntryLe, e, s[1..]));
    } else {
      BareConcat([e], s);
    }
  }

  lemma {:induction false} BareSort(s: seq<Entry>)
    ensures BareAll(SortBy(EntryLe, s)) == SortBy(EntryLe, BareAll(s))
  {
    if s != [] {
      BareSort(s[1..]);
      BareInsert(s[0], SortBy(EntryLe, s[1..]));
      assert BareAll(s)[1..] == BareAll(s[1..]);
    }
  }

  lemma {:induction false} BareMembers(s: seq<Entry>, key: string)
    ensures BareAll(Members(s, key)) == Members(BareAll(s), key)
  {
    if s != [] {
      BareMembers(s[1..], key);
      assert BareAll(s)[1..] == BareAll(s[1..]);
      BareConcat([s[0]], Members(s[1..], key));
    }
  }

  /** The bare entries of distinct reports are distinct, and permute with the reports. */
  lemma BareEntriesPermute(facts: seq<Facts>, other: seq<Facts>)
    requires multiset(facts) == multiset(other) && DistinctAccessions(facts) && DistinctAccessions(other)
    ensures multiset(BareAll(Entries(facts))) == multiset(BareAll(Entries(other)))
  {
    hide BuildChainKey;
    SameMembers(facts, other);
    var a, b := BareAll(Entries(facts)), BareAll(Entries(other));
    forall e ensures e in a <==> e in b {
      BareMember(facts, other, e);
      BareMember(other, facts, e);
    }
    SameMembersPermute(a, b);
  }

  lemma BareMember(facts: seq<Facts>, other: seq<Facts>, e: Entry)
    requires forall f :: f in facts ==> f in other
    ensures e in BareAll(Entries(facts)) ==> e in BareAll(Entries(other))
  {
    hide BuildChainKey;
    if e in BareAll(Entries(facts)) {
      var i :| 0 <= i < |facts| && BareAll(Entries(facts))[i] == e;
      assert facts[i] in other;
      var j :| 0 <= j < |other| && other[j] == facts[i];
      assert BareAll(Entries(other))[j] == e;
    }
  }

  /** The chain of a key, apart from input positions, does not depend on the input order. */
  lemma ChainForgetsOrder(facts: seq<Facts>, other: seq<Facts>, key: string)
    requires multiset(facts) == multiset(other) && DistinctAccessions(facts)
    ensures BareAll(Chain(facts, key)) == BareAll(Chain(other, key))
  {
    hide BuildChainKey, EntryLe;
    PermutationKeepsDistinctKeys((f: Facts) => f.accession, facts, other);
    var a, b := BareAll(Entries(facts)), BareAll(Entries(other));
    BareEntriesPermute(facts, other);
    BareSort(Members(Entries(facts), key));
    BareSort(Members(Entries(other), key));
    BareMembers(Entries(facts), key);
    BareMembers(Entries(other), key);
    FilterPermutes((e: Entry) => e.key == key, a, b);
    EntryOrder();
    forall x, y | x in Members(a, key) && y in Members(a, key) && EntryLe(x, y) && EntryLe(y, x) ensures x == y {
      TiedEntries(x, y);
      var i :| 0 <= i < |a| && a[i] == x;
      var j :| 0 <= j < |a| && a[j] == y;
      assert facts[i].accession == facts[j].accession;
    }
    SortForgetsOrder(EntryLe, Members(a, key), Members(b, key));
  }

  lemma TiedEntries(x: Entry, y: Entry)
    requires EntryLe(x, y) && EntryLe(y, x)
    ensures x.accession == y.accession
  {
    LexAntisymmetric(x.accession, y.accession);
  }

  /** A report's link does not depend on the order in which the filings were listed. */
  lemma LinksForgetOrder(facts: seq<Facts>, other: seq<Facts>, i: nat, j: nat)
    requires multiset(facts) == multiset(other) && DistinctAccessions(facts)
    requires i < |facts| && j < |other| && facts[i] == other[j]
    ensures LinkOf(facts, i) == LinkOf(other, j)
  {
    hide BuildChainKey, Chain, LinkOf;
    var key := BuildChainKey(facts[i]);
    ChainForgetsOrder(facts, other, key);
    PermutationKeepsDistinctKeys((f: Facts) => f.accession, facts, other);
    var chain := Chain(facts, key);
    var l := LinkOf(facts, i);
    var p :| 0 <= p < |chain| && chain[p] == Entries(facts)[i] && l == LinkAt(chain, p);
    SameBareSameLink(chain, Chain(other, key), p);
    FindsReport(other, key, p, j);
    assert IsLink(other, j, l);
    LinkIsUnique(other, j, l, LinkOf(other, j));
  }

  lemma SameBareSameLink(a: seq<Entry>, b: seq<Entry>, p: nat)
    requires BareAll(a) == BareAll(b) && p < |a|
    ensures |a| == |b| && LinkAt(b, p) == LinkAt(a, p) && b[p].accession == a[p].accession
  {
    assert |a| == |BareAll(a)| == |BareAll(b)| == |b|;
    assert Bare(a[p]) == BareAll(a)[p] == Bare(b[p]);
    assert p > 0 ==> Bare(a[p - 1]) == BareAll(a)[p - 1] == Bare(b[p - 1]);
  }

  /** The chain position holding a report's accession number is the report's own. */
  lemma FindsReport(facts: seq<Facts>, key: string, p: nat, j: nat)
    requires DistinctAccessions(facts) && p < |Chain(facts, key)| && j < |facts|
    requires Chain(facts, key)[p].accession == facts[j].accession
    ensures Chain(facts, key)[p] == Entries(facts)[j]
  {
    hide BuildChainKey, Chain;
    ChainFacts(facts, key);
    assert Chain(facts, key)[p] in Chain(facts, key);
  }

  // ----- the collector's final order -----

  /** `reverse=True` on the same sort key. */
  predicate NewestFirst(a: Entry, b: Entry) {
    EntryLe(b, a)
  }

  function FinalOrder(facts: seq<Facts>): seq<Entry> {
    SortBy(NewestFirst, Entries(facts))
  }

  lemma FinalOrderFacts(facts: seq<Facts>)
    ensures Sorted(NewestFirst, FinalOrder(facts)) && |FinalOrder(facts)| == |facts|
    ensures forall e :: e in FinalOrder(facts) <==> e.index < |facts| && e == Entries(facts)[e.index]
    ensures forall a, b :: 0 <= a < b < |facts| ==> FinalOrder(facts)[a].index != FinalOrder(facts)[b].index
  {
    hide BuildChainKey, EntryLe;
    EntryOrder();
    assert Total(NewestFirst) && Transitive(NewestFirst);
    SortSorts(NewestFirst, Entries(facts));
    SortMembers(NewestFirst, Entries(facts));
    DistinctSurvivesSorting(NewestFirst, Entries(facts));
    var order := FinalOrder(facts);
    forall e ensures e in order <==> e.index < |facts| && e == Entries(facts)[e.index] {
      assert e in order <==> e in Entries(facts);
    }
    forall a, b | 0 <= a < b < |facts| ensures order[a].index != order[b].index {
      assert order[a] in order && order[b] in order;
    }
  }

  /** In the collector's output every chain appears in strictly decreasing sequence. */
  lemma OutputShowsChainsNewestFirst(facts: seq<Facts>, a: nat, b: nat)
    requires DistinctAccessions(facts) && a < b < |facts|
    ensures |FinalOrder(facts)| == |facts|
    ensures FinalOrder(facts)[a].index < |facts| && FinalOrder(facts)[b].index < |facts|
    ensures var i, j := FinalOrder(facts)[a].index, FinalOrder(facts)[b].index;
            LinkOf(facts, i).chainKey == LinkOf(facts, j).chainKey ==>
              LinkOf(facts, i).sequence > LinkOf(facts, j).sequence
  {
    hide BuildChainKey, Chain, LinkOf, EntryLe, FinalOrder;
    FinalOrderFacts(facts);
    var order := FinalOrder(facts);
    assert order[a] in order && order[b] in order;
    var i, j := order[a].index, order[b].index;
    assert EntryLe(order[b], order[a]);
    ExactlyOnePlace(facts, i);
    ExactlyOnePlace(facts, j);
    var key := LinkOf(facts, i).chainKey;
    var p, q := LinkOf(facts, i).sequence - 1, LinkOf(facts, j).sequence - 1;
    if LinkOf(facts, j).chainKey == key {
      assert At(facts, key, p, i) && At(facts, key, q, j);
      ChainFacts(facts, key);
      assert Chain(facts, key)[p] in Chain(facts, key) && Chain(facts, key)[q] in Chain(facts, key);
      if p < q {
        assert EntryLe(Chain(facts, key)[p], Chain(facts, key)[q]);
        TiedEntries(order[a], order[b]);
      }
    }
  }

  /** The collector lists the filings from the latest to the earliest. */
  lemma OutputIsNewestFirst(facts: seq<Facts>, a: nat, b: nat)
    requires a < b < |facts|
    ensures |FinalOrder(facts)| == |facts|
    ensures FinalOrder(facts)[a].index < |facts| && FinalOrder(facts)[b].index < |facts|
    ensures FiledNoLater(facts[FinalOrder(facts)[b].index], facts[FinalOrder(facts)[a].index])
  {
    hide BuildChainKey, EntryLe, FinalOrder, FiledNoLater;
    FinalOrderFacts(facts);
    var order := FinalOrder(facts);
    assert order[a] in order && order[b] in order;
    assert NewestFirst(order[a], order[b]);
    EntriesByFiling(facts, order[b].index, order[a].index);
  }

  /** `collect_beneficial_ownership_reports` from the gathered reports on: link all, then list newest first. */
  method Collect(reports: seq<Report>) returns (rows: seq<Report>)
    requires DistinctReports(reports)
    modifies reports
    ensures |rows| == |reports| && |FinalOrder(FactsOf(reports))| == |reports|
    ensures forall a :: 0 <= a < |rows| ==>
              FinalOrder(FactsOf(reports))[a].index < |reports| &&
                rows[a] == reports[FinalOrder(FactsOf(reports))[a].index]
    ensures forall a, b :: 0 <= a < b < |rows| ==> FiledNoLater(rows[b].facts, rows[a].facts)
    ensures forall i :: 0 <= i < |reports| ==> reports[i].Carries(LinkOf(FactsOf(reports), i))
  {
    hide BuildChainKey, FinalOrder, LinkOf, NewestFirst, FiledNoLater;
    AssignAmendmentChainHistory(reports);
    var facts := FactsOf(reports);
    FinalOrderFacts(facts);
    var order := FinalOrder(facts);
    rows := [];
    for a := 0 to |order|
      invariant |rows| == a
      invariant forall b :: 0 <= b < a ==> rows[b] == reports[order[b].index]
    {
      assert order[a] in order;
      rows := rows + [reports[order[a].index]];
    }
    forall a | 0 <= a < |rows| ensures order[a].index < |reports| { assert order[a] in order; }
    forall a, b | 0 <= a < b < |rows| ensures FiledNoLater(rows[b].facts, rows[a].facts) {
      OutputIsNewestFirst(facts, a, b);
    }
  }
}
