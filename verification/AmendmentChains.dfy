/**
 Amendment chains of beneficial ownership reports: reports are gathered by chain key, each chain is sorted by
 (date, accession) and its reports are numbered and linked; the collector then sorts all reports newest first.
 */
module AmendmentChains {
  import opened ChainKeys
  import opened Ordering
  import opened Wrappers

  /** A report's place in the lists: its chain key, its sort key, and which report it is. */
  datatype Entry = Entry(key: string, date: int, accession: string, index: nat)

  /** The fields a report is given. */
  datatype Link = Link(chainKey: string, sequence: nat, size: nat, previous: Option<string>)

  function EffectiveDate(f: Facts): int {
    f.filingDate.GetOr(f.reportDate.GetOr(1))
  }

  function Entries(facts: seq<Facts>): (r: seq<Entry>)
    ensures |r| == |facts|
    ensures forall i :: 0 <= i < |facts| ==>
              r[i] == Entry(BuildChainKey(facts[i]), EffectiveDate(facts[i]), facts[i].accession, i)
  {
    seq(|facts|, i requires 0 <= i < |facts| =>
      Entry(BuildChainKey(facts[i]), EffectiveDate(facts[i]), facts[i].accession, i))
  }

  /** The key of `chain.sort` and of the final sort: (filing date or report date, accession number). */
  predicate EntryLe(a: Entry, b: Entry) {
    a.date < b.date || (a.date == b.date && LexLe(a.accession, b.accession))
  }

  function Members(entries: seq<Entry>, key: string): seq<Entry> {
    Filter((e: Entry) => e.key == key, entries)
  }

  function Chain(facts: seq<Facts>, key: string): seq<Entry> {
    SortBy(EntryLe, Members(Entries(facts), key))
  }

  function LinkAt(chain: seq<Entry>, p: nat): Link
    requires p < |chain|
  {
    Link(chain[p].key, p + 1, |chain|, if p > 0 then Some(chain[p - 1].accession) else None)
  }

  /** `l` is the link of report `i`. */
  ghost predicate IsLink(facts: seq<Facts>, i: nat, l: Link)
    requires i < |facts|
  {
    var chain := Chain(facts, BuildChainKey(facts[i]));
    exists p :: 0 <= p < |chain| && chain[p] == Entries(facts)[i] && l == LinkAt(chain, p)
  }

  class Report {
    const facts: Facts
    var chainKey: Option<string>
    var previous: Option<string>
    var sequence: Option<nat>
    var chainSize: Option<nat>

    constructor (facts: Facts)
      ensures this.facts == facts && chainKey == None && previous == None && sequence == None && chainSize == None
    {
      this.facts := facts;
      chainKey, previous, sequence, chainSize := None, None, None, None;
    }

    /** The report is numbered and linked like this. */
    predicate Linked(l: Link)
      reads this`previous, this`sequence, this`chainSize
    {
      previous == l.previous && sequence == Some(l.sequence) && chainSize == Some(l.size)
    }

    /** The report carries exactly this link. */
    predicate Carries(l: Link)
      reads this
    {
      chainKey == Some(l.chainKey) && Linked(l)
    }
  }

  function FactsOf(reports: seq<Report>): (r: seq<Facts>)
    ensures |r| == |reports| && forall i :: 0 <= i < |r| ==> r[i] == reports[i].facts
  {
    seq(|reports|, i requires 0 <= i < |reports| => reports[i].facts)
  }

  lemma MembersSnoc(entries: seq<Entry>, n: nat, key: string)
    requires n < |entries|
    ensures Members(entries[..n + 1], key) ==
            Members(entries[..n], key) + if entries[n].key == key then [entries[n]] else []
  {
    assert entries[..n + 1] == entries[..n] + [entries[n]];
    FilterConcat((e: Entry) => e.key == key, entries[..n], [entries[n]]);
  }

  /** The dictionary of chains after the first `n` reports. */
  ghost predicate Gathered(chains: map<string, seq<Entry>>, order: seq<string>, entries: seq<Entry>, n: nat)
    requires n <= |entries|
  {
    Distinct(order) &&
    (forall k :: k in order <==> k in chains) &&
    (forall i :: 0 <= i < n ==> entries[i].key in order) &&
    forall k :: Members(entries[..n], k) == if k in chains then chains[k] else []
  }

  lemma GatherStep(chains: map<string, seq<Entry>>, order: seq<string>, entries: seq<Entry>, n: nat)
    requires n < |entries| && Gathered(chains, order, entries, n)
    ensures var e := entries[n];
            Gathered(chains[e.key := (if e.key in chains then chains[e.key] else []) + [e]],
                     if e.key in chains then order else order + [e.key], entries, n + 1)
  {
    hide Members;
    forall k
      ensures Members(entries[..n + 1], k) ==
              Members(entries[..n], k) + if entries[n].key == k then [entries[n]] else []
    {
      MembersSnoc(entries, n, k);
    }
  }

  lemma NothingGathered(entries: seq<Entry>)
    ensures Gathered(map[], [], entries, 0)
  {
    assert entries[..0] == [];
  }

  ghost predicate DistinctReports(reports: seq<Report>) {
    forall i, j :: 0 <= i < j < |reports| ==> reports[i] != reports[j]
  }

  /** The first loop: compute each key, store it in the report, and gather the chains. */
  method GatherChains(reports: seq<Report>) returns (chains: map<string, seq<Entry>>, order: seq<string>)
    requires DistinctReports(reports)
    modifies set r | r in reports
    ensures Gathered(chains, order, Entries(FactsOf(reports)), |reports|)
    ensures forall i :: 0 <= i < |reports| ==> reports[i].chainKey == Some(BuildChainKey(reports[i].facts))
  {
    hide BuildChainKey, Gathered;
    ghost var entries := Entries(FactsOf(reports));
    chains, order := map[], [];
    NothingGathered(entries);
    for i := 0 to |reports|
      invariant Gathered(chains, order, entries, i)
      invariant forall j :: 0 <= j < i ==> reports[j].chainKey == Some(BuildChainKey(reports[j].facts))
    {
      var report := reports[i];
      var key := BuildChainKey(report.facts);
      report.chainKey := Some(key);
      GatherStep(chains, order, entries, i);
      var e := Entry(key, EffectiveDate(report.facts), report.facts.accession, i);
      if key in chains {
        chains := chains[key := chains[key] + [e]];
      } else {
        chains, order := chains[key := [] + [e]], order + [key];
      }
    }
  }

  ghost predicate ValidIndices(chain: seq<Entry>, n: nat) {
    (forall p :: 0 <= p < |chain| ==> chain[p].index < n) &&
    forall p, q :: 0 <= p < q < |chain| ==> chain[p].index != chain[q].index
  }

  /** The inner loop: number and link one sorted chain. */
  method LinkChain(reports: seq<Report>, chain: seq<Entry>)
    requires DistinctReports(reports) && ValidIndices(chain, |reports|)
    modifies (set p | 0 <= p < |chain| :: reports[chain[p].index])`previous
    modifies (set p | 0 <= p < |chain| :: reports[chain[p].index])`sequence
    modifies (set p | 0 <= p < |chain| :: reports[chain[p].index])`chainSize
    ensures forall p :: 0 <= p < |chain| ==> reports[chain[p].index].Linked(LinkAt(chain, p))
  {
    var size := |chain|;
    for p := 0 to size
      invariant forall q :: 0 <= q < p ==> reports[chain[q].index].Linked(LinkAt(chain, q))
    {
      var report := reports[chain[p].index];
      report.sequence := Some(p + 1);
      report.chainSize := Some(size);
      report.previous := if p > 0 then Some(chain[p - 1].accession) else None;
      assert report.Linked(LinkAt(chain, p));
    }
  }

  // ----- facts about a chain -----

  lemma EntryOrder()
    ensures Total(EntryLe) && Transitive(EntryLe)
  {
    LexOrder();
  }

  lemma ChainFacts(facts: seq<Facts>, key: string)
    ensures Sorted(EntryLe, Chain(facts, key)) && Distinct(Chain(facts, key)) &&
            ValidIndices(Chain(facts, key), |facts|)
    ensures forall e :: e in Chain(facts, key) <==> e.index < |facts| && e == Entries(facts)[e.index] && e.key == key
  {
    hide BuildChainKey, EntryLe;
    EntryOrder();
    var entries := Entries(facts);
    var members := Members(entries, key);
    DistinctSurvivesFilter((e: Entry) => e.key == key, entries);
    DistinctSurvivesSorting(EntryLe, members);
    SortSorts(EntryLe, members);
    SortMembers(EntryLe, members);
    var chain := Chain(facts, key);
    forall e ensures e in chain <==> e.index < |facts| && e == entries[e.index] && e.key == key {
      assert e in chain <==> e in entries && e.key == key;
    }
    forall p | 0 <= p < |chain| ensures chain[p].index < |facts| && chain[p] == entries[chain[p].index] {
      assert chain[p] in chain;
    }
  }

  lemma InOwnChain(facts: seq<Facts>, i: nat) returns (p: nat)
    requires i < |facts|
    ensures p < |Chain(facts, BuildChainKey(facts[i]))| && Chain(facts, BuildChainKey(facts[i]))[p] == Entries(facts)[i]
  {
    hide BuildChainKey;
    var chain := Chain(facts, BuildChainKey(facts[i]));
    ChainFacts(facts, BuildChainKey(facts[i]));
    assert Entries(facts)[i] in chain;
    p :| 0 <= p < |chain| && chain[p] == Entries(facts)[i];
  }

  /** Every report has a link, and only one. */
  lemma LinkIsUnique(facts: seq<Facts>, i: nat, l: Link, m: Link)
    requires i < |facts| && IsLink(facts, i, l) && IsLink(facts, i, m)
    ensures l == m
  {
    hide BuildChainKey;
    ChainFacts(facts, BuildChainKey(facts[i]));
  }

  lemma HasLink(facts: seq<Facts>, i: nat)
    requires i < |facts|
    ensures exists l :: IsLink(facts, i, l)
  {
    hide BuildChainKey;
    var p := InOwnChain(facts, i);
    assert IsLink(facts, i, LinkAt(Chain(facts, BuildChainKey(facts[i])), p));
  }

  ghost function LinkOf(facts: seq<Facts>, i: nat): (l: Link)
    requires i < |facts|
    ensures IsLink(facts, i, l)
  {
    HasLink(facts, i);
    var l :| IsLink(facts, i, l);
    l
  }

  // ----- the imperative assignment -----

  lemma GatheredChains(chains: map<string, seq<Entry>>, order: seq<string>, facts: seq<Facts>)
    requires Gathered(chains, order, Entries(facts), |facts|)
    ensures Distinct(order) && (forall k :: k in order <==> k in chains)
    ensures forall i :: 0 <= i < |facts| ==> BuildChainKey(facts[i]) in order
    ensures forall k :: k in order ==> SortBy(EntryLe, chains[k]) == Chain(facts, k)
  {
    hide BuildChainKey;
    assert Entries(facts)[..|facts|] == Entries(facts);
    forall i | 0 <= i < |facts| ensures BuildChainKey(facts[i]) in order { assert Entries(facts)[i].key in order; }
  }

  /** Report `i` carries its link, apart from the chain key. */
  ghost predicate LinkedTo(reports: seq<Report>, i: nat)
    requires i < |reports|
    reads reports
  {
    exists l :: IsLink(FactsOf(reports), i, l) && reports[i].Linked(l)
  }

  method LinkOneChain(reports: seq<Report>, key: string, chain: seq<Entry>)
    requires DistinctReports(reports) && chain == Chain(FactsOf(reports), key)
    modifies (set i | 0 <= i < |reports| && BuildChainKey(reports[i].facts) == key :: reports[i])`previous
    modifies (set i | 0 <= i < |reports| && BuildChainKey(reports[i].facts) == key :: reports[i])`sequence
    modifies (set i | 0 <= i < |reports| && BuildChainKey(reports[i].facts) == key :: reports[i])`chainSize
    ensures forall i :: 0 <= i < |reports| && BuildChainKey(reports[i].facts) == key ==> LinkedTo(reports, i)
  {
    hide BuildChainKey, Chain;
    ghost var facts := FactsOf(reports);
    ChainFacts(facts, key);
    forall p | 0 <= p < |chain|
      ensures BuildChainKey(reports[chain[p].index].facts) == key { assert chain[p] in chain; }
    LinkChain(reports, chain);
    forall i | 0 <= i < |reports| && BuildChainKey(reports[i].facts) == key ensures LinkedTo(reports, i) {
      var p := InOwnChain(facts, i);
      assert IsLink(facts, i, LinkAt(chain, p));
    }
  }

  /** `_assign_amendment_chain_history`: every report ends up carrying its link. */
  method AssignAmendmentChainHistory(reports: seq<Report>)
    requires DistinctReports(reports)
    modifies reports
    ensures forall i :: 0 <= i < |reports| ==> reports[i].Carries(LinkOf(FactsOf(reports), i))
  {
    hide BuildChainKey, Gathered, Chain;
    ghost var facts := FactsOf(reports);
    var chains, order := GatherChains(reports);
    GatheredChains(chains, order, facts);
    for c := 0 to |order|
      invariant forall i :: 0 <= i < |reports| ==> reports[i].chainKey == Some(BuildChainKey(reports[i].facts))
      invariant forall i :: 0 <= i < |reports| && BuildChainKey(reports[i].facts) in order[..c] ==> LinkedTo(reports, i)
    {
      assert forall k :: k in order[..c] ==> k != order[c];
      LinkOneChain(reports, order[c], SortBy(EntryLe, chains[order[c]]));
    }
    forall i | 0 <= i < |reports| ensures reports[i].Carries(LinkOf(facts, i)) {
      assert order[..|order|] == order;
      assert LinkedTo(reports, i);
      var l :| IsLink(facts, i, l) && reports[i].Linked(l);
      LinkIsUnique(facts, i, l, LinkOf(facts, i));
    }
  }
}
