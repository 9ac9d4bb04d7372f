/**
 Source provenance: usages are merged per source into one entry with the strongest role, the newest as-of text and the
 latest refresh time; a source mix is derived from the entries. The registry is a parameter.
 */
module Provenance {
  import opened Ordering
  import opened Text
  import opened Wrappers

  datatype Tier =
    | OfficialRegulator
    | OfficialStatistical
    | OfficialTreasuryOrFed
    | DerivedFromOfficial
    | CommercialFallback
    | ManualOverride

  datatype Role = Primary | Supplemental | Derived | Fallback

  datatype SourceDefinition = SourceDefinition(sourceId: string, tier: Tier, display: string)

  type Registry = map<string, SourceDefinition>

  /** Keyed by id; ids are nonempty and without outer white space. */
  ghost predicate ValidRegistry(registry: Registry) {
    forall id :: id in registry ==> registry[id].sourceId == id && id != "" && Trimmed(id)
  }

  datatype Usage = Usage(sourceId: string, role: Role, asOf: Option<string>, refreshedAt: Option<int>)

  datatype Entry = Entry(sourceId: string, tier: Tier, display: string, role: Role, asOf: Option<string>,
    refreshedAt: Option<int>)

  /** Texts to instants; the values of one call are all timezone-aware or all naive, so instants compare. */
  type AsOfParser = string -> Option<int>

  function RoleOrder(r: Role): nat {
    match r
    case Primary => 0
    case Supplemental => 1
    case Derived => 2
    case Fallback => 3
  }

  predicate IsFallbackTier(t: Tier) {
    t.CommercialFallback? || t.ManualOverride?
  }

  function NormalizeAsOf(text: Option<string>): Option<string> {
    if text.Some? && Strip(text.value) != "" then Some(Strip(text.value)) else None
  }

  /** `_newer_as_of` on normalised texts. */
  function NewerAsOf(parse: AsOfParser, current: Option<string>, candidate: Option<string>): Option<string> {
    if current == None then candidate
    else if candidate == None then current
    else
      var c, n := parse(current.value), parse(candidate.value);
      if c == None || n == None then if LexLe(current.value, candidate.value) then candidate else current
      else if n.value >= c.value then candidate
      else current
  }

  function LaterRefresh(current: Option<int>, candidate: Option<int>): Option<int> {
    if current == None then candidate
    else if candidate == None then current
    else Some(if current.value >= candidate.value then current.value else candidate.value)
  }

  function FirstEntry(d: SourceDefinition, u: Usage): Entry {
    Entry(d.sourceId, d.tier, d.display, u.role, NormalizeAsOf(u.asOf), u.refreshedAt)
  }

  function MergeUsage(parse: AsOfParser, e: Entry, u: Usage): Entry {
    e.(role := if RoleOrder(u.role) < RoleOrder(e.role) then u.role else e.role,
       asOf := NewerAsOf(parse, e.asOf, NormalizeAsOf(u.asOf)),
       refreshedAt := LaterRefresh(e.refreshedAt, u.refreshedAt))
  }

  /** The insertion-ordered dictionary of entries. */
  datatype Merged = Merged(order: seq<string>, entries: map<string, Entry>)

  function MergeStep(registry: Registry, parse: AsOfParser, m: Merged, u: Usage): Merged {
    if u.sourceId !in registry then m
    else
      var d := registry[u.sourceId];
      if d.sourceId !in m.entries then Merged(m.order + [d.sourceId], m.entries[d.sourceId := FirstEntry(d, u)])
      else m.(entries := m.entries[d.sourceId := MergeUsage(parse, m.entries[d.sourceId], u)])
  }

  function MergeAll(registry: Registry, parse: AsOfParser, usages: seq<Usage>): Merged {
    if usages == [] then Merged([], map[])
    else MergeStep(registry, parse, MergeAll(registry, parse, usages[..|usages| - 1]), usages[|usages| - 1])
  }

  /** Sort key (role order, display label). */
  predicate ShownBefore(a: Entry, b: Entry) {
    RoleOrder(a.role) < RoleOrder(b.role) || (a.role == b.role && LexLe(a.display, b.display))
  }

  function EntriesInOrder(m: Merged): (r: seq<Entry>)
    requires forall id :: id in m.order ==> id in m.entries
    ensures |r| == |m.order| && forall i :: 0 <= i < |r| ==> r[i] == m.entries[m.order[i]]
  {
    seq(|m.order|, i requires 0 <= i < |m.order| => m.entries[m.order[i]])
  }

  ghost predicate WellFormed(m: Merged) {
    Distinct(m.order) && forall id :: id in m.order <==> id in m.entries
  }

  lemma {:induction false} MergeIsWellFormed(registry: Registry, parse: AsOfParser, usages: seq<Usage>)
    ensures WellFormed(MergeAll(registry, parse, usages))
  {
    if usages != [] { MergeIsWellFormed(registry, parse, usages[..|usages| - 1]); }
  }

  function ProvenanceEntries(registry: Registry, parse: AsOfParser, usages: seq<Usage>): seq<Entry> {
    MergeIsWellFormed(registry, parse, usages);
    SortBy(ShownBefore, EntriesInOrder(MergeAll(registry, parse, usages)))
  }

  method BuildProvenanceEntries(registry: Registry, parse: AsOfParser, usages: seq<Usage>) returns (entries: seq<Entry>)
    ensures entries == ProvenanceEntries(registry, parse, usages)
  {
    var order: seq<string> := [];
    var merged: map<string, Entry> := map[];
    for i := 0 to |usages|
      invariant Merged(order, merged) == MergeAll(registry, parse, usages[..i])
    {
      var usage := usages[i];
      assert usages[..i + 1][..i] == usages[..i];
      if usage.sourceId !in registry {
        continue;
      }
      var definition := registry[usage.sourceId];
      if definition.sourceId !in merged {
        order := order + [definition.sourceId];
        merged := merged[definition.sourceId := FirstEntry(definition, usage)];
      } else {
        merged := merged[definition.sourceId := MergeUsage(parse, merged[definition.sourceId], usage)];
      }
    }
    assert usages[..|usages|] == usages;
    MergeIsWellFormed(registry, parse, usages);
    entries := SortBy(ShownBefore, EntriesInOrder(Merged(order, merged)));
  }

  // ----- what an entry says about the usages of its source -----

  predicate UsageOf(u: Usage, id: string) {
    u.sourceId == id
  }

  /** The strongest role used. */
  ghost predicate StrongestRole(role: Role, usages: seq<Usage>, id: string) {
    (exists u :: u in usages && UsageOf(u, id) && u.role == role) &&
    forall u :: u in usages && UsageOf(u, id) ==> RoleOrder(role) <= RoleOrder(u.role)
  }

  /** The latest refresh time reported, missing only when none is reported. */
  ghost predicate LatestRefresh(at: Option<int>, usages: seq<Usage>, id: string) {
    (at.Some? ==> exists u :: u in usages && UsageOf(u, id) && u.refreshedAt == at) &&
    forall u :: u in usages && UsageOf(u, id) && u.refreshedAt.Some? ==> at.Some? && u.refreshedAt.value <= at.value
  }

  /** The newest as-of text, when every text parses: one of the texts, at the greatest instant. */
  ghost predicate NewestAsOf(parse: AsOfParser, text: Option<string>, usages: seq<Usage>, id: string) {
    (text.Some? ==> parse(text.value).Some? && exists u ::
      u in usages && UsageOf(u, id) && Dated(u) && Strip(u.asOf.value) == text.value) &&
    forall u :: u in usages && UsageOf(u, id) && Dated(u) ==>
      text.Some? && parse(text.value).Some? && parse(Strip(u.asOf.value)).Some? &&
      parse(Strip(u.asOf.value)).value <= parse(text.value).value
  }

  /** The usage has an as-of text that is not blank. */
  predicate Dated(u: Usage) {
    u.asOf.Some? && Strip(u.asOf.value) != ""
  }

  ghost predicate AllParse(parse: AsOfParser, usages: seq<Usage>) {
    forall u :: u in usages && Dated(u) ==> parse(Strip(u.asOf.value)).Some?
  }

  ghost predicate Used(registry: Registry, usages: seq<Usage>, id: string) {
    id in registry && exists u :: u in usages && UsageOf(u, id)
  }

  lemma SnocMembers<T>(s: seq<T>)
    requires s != []
    ensures forall x :: x in s <==> x in s[..|s| - 1] || x == s[|s| - 1]
  {
    assert s == s[..|s| - 1] + [s[|s| - 1]];
  }

  /** Which sources are in the dictionary, and what the registry says about them. */
  lemma {:induction false} MergedSources(registry: Registry, parse: AsOfParser, usages: seq<Usage>, id: string)
    requires ValidRegistry(registry)
    ensures id in MergeAll(registry, parse, usages).entries <==> Used(registry, usages, id)
    ensures id in MergeAll(registry, parse, usages).entries ==>
              var e := MergeAll(registry, parse, usages).entries[id];
              e.sourceId == id && e.tier == registry[id].tier && e.display == registry[id].display
  {
    hide NormalizeAsOf, NewerAsOf;
    if usages != [] {
      var n := |usages| - 1;
      SnocMembers(usages);
      MergedSources(registry, parse, usages[..n], id);
      assert Used(registry, usages, id) <==>
        Used(registry, usages[..n], id) || (id in registry && UsageOf(usages[n], id));
    }
  }

  lemma {:induction false} MergedRole(registry: Registry, parse: AsOfParser, usages: seq<Usage>, id: string)
    requires ValidRegistry(registry) && id in MergeAll(registry, parse, usages).entries
    ensures StrongestRole(MergeAll(registry, parse, usages).entries[id].role, usages, id)
    decreases |usages|
  {
    hide NormalizeAsOf, NewerAsOf;
    SnocMembers(usages);
    MergedSources(registry, parse, usages[..|usages| - 1], id);
    if id in MergeAll(registry, parse, usages[..|usages| - 1]).entries {
      MergedRole(registry, parse, usages[..|usages| - 1], id);
    }
  }

  lemma {:induction false} MergedRefresh(registry: Registry, parse: AsOfParser, usages: seq<Usage>, id: string)
    requires ValidRegistry(registry) && id in MergeAll(registry, parse, usages).entries
    ensures LatestRefresh(MergeAll(registry, parse, usages).entries[id].refreshedAt, usages, id)
    decreases |usages|
  {
    hide NormalizeAsOf, NewerAsOf;
    SnocMembers(usages);
    MergedSources(registry, parse, usages[..|usages| - 1], id);
    if id in MergeAll(registry, parse, usages[..|usages| - 1]).entries {
      MergedRefresh(registry, parse, usages[..|usages| - 1], id);
    }
  }

  /** On texts that parse, the newer one is one of the two, at the later instant. */
  lemma NewerAsOfIsLater(parse: AsOfParser, current: Option<string>, candidate: Option<string>)
    requires current.Some? ==> parse(current.value).Some?
    requires candidate.Some? ==> parse(candidate.value).Some?
    ensures var newer := NewerAsOf(parse, current, candidate);
            && (newer == current || newer == candidate)
            && (newer == None <==> current == None && candidate == None)
            && (current.Some? ==> parse(current.value).value <= parse(newer.value).value)
            && (candidate.Some? ==> parse(candidate.value).value <= parse(newer.value).value)
            && (current.Some? && candidate.Some? && parse(current.value) == parse(candidate.value) ==>
                newer == candidate)
  {
    hide LexLe;
  }

  /** When one of two texts does not parse, the greater text is taken. */
  lemma UnparsedCompareAsTexts(parse: AsOfParser, current: string, candidate: string)
    requires parse(current).None? || parse(candidate).None?
    ensures var newer := NewerAsOf(parse, Some(current), Some(candidate));
            newer in {Some(current), Some(candidate)} && LexLe(current, newer.value) && LexLe(candidate, newer.value)
  {
    hide LexLe;
    LexTotal(current, candidate);
    LexTotal(current, current);
    LexTotal(candidate, candidate);
  }

  lemma {:induction false} MergedAsOf(registry: Registry, parse: AsOfParser, usages: seq<Usage>, id: string)
    requires ValidRegistry(registry) && id in MergeAll(registry, parse, usages).entries && AllParse(parse, usages)
    ensures NewestAsOf(parse, MergeAll(registry, parse, usages).entries[id].asOf, usages, id)
    decreases |usages|
  {
    hide Strip, NewerAsOf;
    var n := |usages| - 1;
    SnocMembers(usages);
    MergedSources(registry, parse, usages[..n], id);
    if id in MergeAll(registry, parse, usages[..n]).entries {
      MergedAsOf(registry, parse, usages[..n], id);
      NewerAsOfIsLater(parse, MergeAll(registry, parse, usages[..n]).entries[id].asOf, NormalizeAsOf(usages[n].asOf));
    }
  }

  // ----- the list of entries -----

  lemma EntryMembers(registry: Registry, parse: AsOfParser, usages: seq<Usage>)
    requires ValidRegistry(registry)
    ensures var m := MergeAll(registry, parse, usages);
            forall e :: e in ProvenanceEntries(registry, parse, usages) <==>
              e.sourceId in m.entries && m.entries[e.sourceId] == e
  {
    var m := MergeAll(registry, parse, usages);
    MergeIsWellFormed(registry, parse, usages);
    SortMembers(ShownBefore, EntriesInOrder(m));
    forall e ensures e in EntriesInOrder(m) <==> e.sourceId in m.entries && m.entries[e.sourceId] == e {
      if e in EntriesInOrder(m) {
        var i :| 0 <= i < |m.order| && EntriesInOrder(m)[i] == e;
        assert m.order[i] in m.order;
        MergedSources(registry, parse, usages, m.order[i]);
      }
      if e.sourceId in m.entries && m.entries[e.sourceId] == e {
        assert e.sourceId in m.order;
        var i :| 0 <= i < |m.order| && m.order[i] == e.sourceId;
        assert EntriesInOrder(m)[i] == e;
      }
    }
  }

  lemma ShownOrder()
    ensures Total(ShownBefore) && Transitive(ShownBefore)
  {
    hide LexLe;
    LexOrder();
  }

  lemma EntriesAreDistinct(registry: Registry, parse: AsOfParser, usages: seq<Usage>)
    requires ValidRegistry(registry)
    ensures Distinct(ProvenanceEntries(registry, parse, usages))
  {
    var m := MergeAll(registry, parse, usages);
    MergeIsWellFormed(registry, parse, usages);
    var entries := EntriesInOrder(m);
    forall i, j | 0 <= i < j < |entries| ensures entries[i] != entries[j] {
      assert m.order[i] in m.order && m.order[j] in m.order;
      MergedSources(registry, parse, usages, m.order[i]);
      MergedSources(registry, parse, usages, m.order[j]);
    }
    DistinctSurvivesSorting(ShownBefore, entries);
  }

  /** What one entry of the list says: its source's definition and the merged facts about its usages. */
  ghost predicate Summarises(registry: Registry, usages: seq<Usage>, e: Entry) {
    Used(registry, usages, e.sourceId) && e.tier == registry[e.sourceId].tier &&
      e.display == registry[e.sourceId].display &&
    StrongestRole(e.role, usages, e.sourceId) && LatestRefresh(e.refreshedAt, usages, e.sourceId)
  }

  /**
   The entries are sorted by role and label, name exactly the known sources used, without repeats, and each carries
   the strongest role and the latest refresh time among its usages.
   */
  lemma EntriesMeaning(registry: Registry, parse: AsOfParser, usages: seq<Usage>)
    requires ValidRegistry(registry)
    ensures Sorted(ShownBefore, ProvenanceEntries(registry, parse, usages))
    ensures forall e :: e in ProvenanceEntries(registry, parse, usages) ==> Summarises(registry, usages, e)
    ensures forall e, g ::
            e in ProvenanceEntries(registry, parse, usages) && g in ProvenanceEntries(registry, parse, usages) ==>
              e.sourceId == g.sourceId ==> e == g
    ensures forall id :: Used(registry, usages, id) ==>
            exists e :: e in ProvenanceEntries(registry, parse, usages) && e.sourceId == id
  {
    var m := MergeAll(registry, parse, usages);
    var entries := ProvenanceEntries(registry, parse, usages);
    MergeIsWellFormed(registry, parse, usages);
    ShownOrder();
    SortSorts(ShownBefore, EntriesInOrder(m));
    EntryMembers(registry, parse, usages);
    hide ProvenanceEntries, MergeAll;
    forall e | e in entries ensures Summarises(registry, usages, e) {
      MergedSources(registry, parse, usages, e.sourceId);
      MergedRole(registry, parse, usages, e.sourceId);
      MergedRefresh(registry, parse, usages, e.sourceId);
    }
    forall id | Used(registry, usages, id) ensures exists e :: e in entries && e.sourceId == id {
      MergedSources(registry, parse, usages, id);
      assert m.entries[id] in entries;
    }
  }

  /** The as-of instant of an entry is the greatest among its usages, whenever all texts parse. */
  lemma EntryAsOfIsNewest(registry: Registry, parse: AsOfParser, usages: seq<Usage>, e: Entry)
    requires ValidRegistry(registry) && AllParse(parse, usages) && e in ProvenanceEntries(registry, parse, usages)
    ensures NewestAsOf(parse, e.asOf, usages, e.sourceId)
  {
    EntryMembers(registry, parse, usages);
    hide ProvenanceEntries, MergeAll;
    MergedAsOf(registry, parse, usages, e.sourceId);
  }

  const ROLES: seq<Role> := [Primary, Supplemental, Derived, Fallback]

  /** Primary sources are listed first, then supplemental, derived and fallback ones; within a role by label. */
  lemma EntriesByRoleThenLabel(
      registry: Registry, parse: AsOfParser, usages: seq<Usage>, i: nat, j: nat, p: nat, q: nat)
    requires ValidRegistry(registry) && i < j < |ProvenanceEntries(registry, parse, usages)| && p < 4 && q < 4
    requires ProvenanceEntries(registry, parse, usages)[i].role == ROLES[p]
    requires ProvenanceEntries(registry, parse, usages)[j].role == ROLES[q]
    ensures p <= q
    ensures p == q ==> LexLe(ProvenanceEntries(registry, parse, usages)[i].display,
                             ProvenanceEntries(registry, parse, usages)[j].display)
  {
    EntriesMeaning(registry, parse, usages);
    hide ProvenanceEntries, LexLe;
    var entries := ProvenanceEntries(registry, parse, usages);
    assert ShownBefore(entries[i], entries[j]);
  }

  /** Ids, tiers, roles and refresh times do not depend on the order of the usages. */
  lemma EntriesForgetOrder(registry: Registry, parse: AsOfParser, usages: seq<Usage>, other: seq<Usage>, e: Entry)
    requires ValidRegistry(registry) && multiset(usages) == multiset(other)
    requires e in ProvenanceEntries(registry, parse, usages)
    ensures exists g :: g in ProvenanceEntries(registry, parse, other) && g == e.(asOf := g.asOf)
  {
    hide ProvenanceEntries;
    SameMembers(usages, other);
    EntriesMeaning(registry, parse, usages);
    EntriesMeaning(registry, parse, other);
    assert Used(registry, other, e.sourceId);
    var g :| g in ProvenanceEntries(registry, parse, other) && g.sourceId == e.sourceId;
    assert Summarises(registry, usages, e) && Summarises(registry, other, g);
    assert RoleOrder(g.role) == RoleOrder(e.role);
    assert g.role == e.role;
    assert g.refreshedAt == e.refreshedAt;
  }
}
