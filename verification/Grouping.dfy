/** Grouping records by a key into a dictionary, in insertion order; the groups partition the records. */
module Grouping {
  import opened Ordering

  /** The records of one key, in input order. */
  function Group<R(!new), K(==, !new)>(key: R -> K, records: seq<R>, k: K): seq<R> {
    Filter((r: R) => key(r) == k, records)
  }

  /** The keys in order of first appearance, the insertion order of the dictionary. */
  function KeyOrder<R, K(==, !new)>(key: R -> K, records: seq<R>): (keys: seq<K>)
    ensures Distinct(keys)
    ensures forall k :: k in keys <==> exists r :: r in records && key(r) == k
  {
    if records == [] then [] else
      var n := |records| - 1;
      var before := KeyOrder(key, records[..n]);
      assert records == records[..n] + [records[n]];
      if key(records[n]) in before then before else before + [key(records[n])]
  }

  lemma GroupNotEmpty<R(!new), K(!new)>(key: R -> K, records: seq<R>, k: K)
    requires k in KeyOrder(key, records)
    ensures Group(key, records, k) != []
  {
    var r :| r in records && key(r) == k;
    assert r in Group(key, records, k);
  }

  lemma GroupMembers<R(!new), K(!new)>(key: R -> K, records: seq<R>, k: K)
    ensures forall r :: r in Group(key, records, k) <==> r in records && key(r) == k
  {
  }

  lemma GroupPermutes<R(!new), K(!new)>(key: R -> K, s: seq<R>, t: seq<R>, k: K)
    requires multiset(s) == multiset(t)
    ensures multiset(Group(key, s, k)) == multiset(Group(key, t, k))
  {
    FilterPermutes((r: R) => key(r) == k, s, t);
  }

  lemma GroupSnoc<R(!new), K(!new)>(key: R -> K, records: seq<R>, n: nat, k: K)
    requires n < |records|
    ensures Group(key, records[..n + 1], k) ==
            Group(key, records[..n], k) + if key(records[n]) == k then [records[n]] else []
  {
    assert records[..n + 1] == records[..n] + [records[n]];
    FilterConcat((r: R) => key(r) == k, records[..n], [records[n]]);
  }

  lemma KeyOrderSnoc<R, K(!new)>(key: R -> K, records: seq<R>, n: nat)
    requires n < |records|
    ensures KeyOrder(key, records[..n + 1]) ==
            KeyOrder(key, records[..n]) +
            if key(records[n]) in KeyOrder(key, records[..n]) then [] else [key(records[n])]
  {
    assert records[..n + 1][..n] == records[..n];
  }

  lemma {:induction false} NewGroupIsEmpty<R(!new), K(!new)>(key: R -> K, records: seq<R>, n: nat, k: K)
    requires n <= |records| && k !in KeyOrder(key, records[..n])
    ensures Group(key, records[..n], k) == []
  {
    hide Group, KeyOrder;
    if n > 0 {
      KeyOrderSnoc(key, records, n - 1);
      GroupSnoc(key, records, n - 1, k);
      NewGroupIsEmpty(key, records, n - 1, k);
    } else {
      assert records[..0] == [];
      EmptyGroup(key, k);
    }
  }

  lemma EmptyGroup<R(!new), K(!new)>(key: R -> K, k: K)
    ensures Group(key, [], k) == [] && KeyOrder(key, []) == []
  {
  }

  /** The dictionary of groups after the first `n` records, with its insertion order. */
  ghost predicate GroupedSoFar<R(!new), K(!new)>(
    key: R -> K, grouped: map<K, seq<R>>, order: seq<K>, records: seq<R>, n: nat)
    requires n <= |records|
  {
    order == KeyOrder(key, records[..n]) &&
    forall k :: if k in grouped then k in order && grouped[k] == Group(key, records[..n], k)
                else k !in order && Group(key, records[..n], k) == []
  }

  lemma GroupingStep<R(!new), K(!new)>(key: R -> K, grouped: map<K, seq<R>>, order: seq<K>, records: seq<R>, n: nat)
    requires n < |records| && GroupedSoFar(key, grouped, order, records, n)
    ensures var r := records[n];
            var k := key(r);
            var found := if k in grouped then grouped[k] else [];
            GroupedSoFar(key, grouped[k := found + [r]], if k in grouped then order else order + [k], records, n + 1)
  {
    hide Group, KeyOrder;
    KeyOrderSnoc(key, records, n);
    forall k ensures Group(key, records[..n + 1], k) ==
                     Group(key, records[..n], k) + if key(records[n]) == k then [records[n]] else []
    {
      GroupSnoc(key, records, n, k);
    }
  }

  /** Append each record to its key's list. */
  method GroupBy<R(!new), K(!new, ==)>(key: R -> K, records: seq<R>) returns (grouped: map<K, seq<R>>, order: seq<K>)
    ensures order == KeyOrder(key, records)
    ensures forall k :: k in order ==> k in grouped && grouped[k] == Group(key, records, k)
  {
    grouped, order := map[], [];
    forall k ensures Group(key, [], k) == [] && KeyOrder(key, []) == [] { EmptyGroup(key, k); }
    hide Group, KeyOrder;
    assert records[..0] == [];
    for i := 0 to |records|
      invariant GroupedSoFar(key, grouped, order, records, i)
    {
      var k := key(records[i]);
      GroupingStep(key, grouped, order, records, i);
      var found := if k in grouped then grouped[k] else [];
      if k !in grouped {
        order := order + [k];
      }
      grouped := grouped[k := found + [records[i]]];
    }
    assert records[..|records|] == records;
  }

  // ----- the groups partition the records -----

  /** How many records with a property the groups of some keys hold. */
  function CountIn<R(!new), K(==, !new)>(key: R -> K, p: R -> bool, records: seq<R>, keys: seq<K>): nat {
    if keys == [] then 0
    else CountIn(key, p, records, keys[..|keys| - 1]) + |Filter(p, Group(key, records, keys[|keys| - 1]))|
  }

  lemma {:induction false} CountGrows<R(
      !new), K(!new)>(key: R -> K, p: R -> bool, records: seq<R>, n: nat, keys: seq<K>)
    requires n < |records| && Distinct(keys)
    ensures CountIn(key, p, records[..n + 1], keys) ==
            CountIn(key, p, records[..n], keys) + if key(records[n]) in keys && p(records[n]) then 1 else 0
  {
    hide Group;
    if keys != [] {
      var (before, k) := (keys[..|keys| - 1], keys[|keys| - 1]);
      CountGrows(key, p, records, n, before);
      GroupSnoc(key, records, n, k);
      FilterConcat(p, Group(key, records[..n], k), [records[n]]);
      assert Group(key, records[..n], k) + [] == Group(key, records[..n], k);
      assert keys == before + [k] && k !in before;
    }
  }

  lemma CountAppended<R(!new), K(!new)>(key: R -> K, p: R -> bool, records: seq<R>, keys: seq<K>, k: K)
    ensures CountIn(key, p, records, keys + [k]) == CountIn(key, p, records, keys) + |Filter(p, Group(key, records, k))|
  {
    assert (keys + [k])[..|keys|] == keys;
  }

  lemma {:induction false} CountedUpTo<R(!new), K(!new)>(key: R -> K, p: R -> bool, records: seq<R>, n: nat)
    requires n <= |records|
    ensures CountIn(key, p, records[..n], KeyOrder(key, records[..n])) == |Filter(p, records[..n])|
  {
    hide Group, KeyOrder, CountIn;
    if n == 0 {
      assert records[..0] == [];
      NothingCounted(key, p);
    } else {
      var m := n - 1;
      var (before, k) := (KeyOrder(key, records[..m]), key(records[m]));
      CountedUpTo(key, p, records, m);
      KeyOrderSnoc(key, records, m);
      CountGrows(key, p, records, m, KeyOrder(key, records[..n]));
      if k !in before {
        NewGroupIsEmpty(key, records, m, k);
        CountAppended(key, p, records[..m], before, k);
      } else {
        assert before + [] == before;
      }
      assert records[..n] == records[..m] + [records[m]];
      FilterConcat(p, records[..m], [records[m]]);
    }
  }

  lemma NothingCounted<R(!new), K(!new)>(key: R -> K, p: R -> bool)
    ensures KeyOrder(key, []) == [] && CountIn(key, p, [], []) == 0
  {
  }

  /** Whatever is counted, the groups' counts add up to the count over all records. */
  lemma GroupsPartition<R(!new), K(!new)>(key: R -> K, p: R -> bool, records: seq<R>)
    ensures CountIn(key, p, records, KeyOrder(key, records)) == |Filter(p, records)|
  {
    CountedUpTo(key, p, records, |records|);
    assert records[..|records|] == records;
  }
}
