/**
 Sorting as the repository uses it: `sorted`, `list.sort` and SQL `ORDER BY` are all modelled by one stable
 insertion sort, parameterised by the order. The lemmas say that it sorts, that it permutes, and that with an
 antisymmetric order its result depends on the multiset of its input only.
 */
module Ordering {

  ghost predicate Total<T(!new)>(le: (T, T) -> bool) {
    forall a, b :: le(a, b) || le(b, a)
  }

  ghost predicate Transitive<T(!new)>(le: (T, T) -> bool) {
    forall a, b, c :: le(a, b) && le(b, c) ==> le(a, c)
  }

  /** No two different elements of `s` are equivalent. */
  ghost predicate AntisymmetricOn<T>(le: (T, T) -> bool, s: seq<T>) {
    forall a, b :: a in s && b in s && le(a, b) && le(b, a) ==> a == b
  }

  ghost predicate Sorted<T>(le: (T, T) -> bool, s: seq<T>) {
    forall i, j :: 0 <= i < j < |s| ==> le(s[i], s[j])
  }

  ghost predicate Distinct<T>(s: seq<T>) {
    forall i, j :: 0 <= i < j < |s| ==> s[i] != s[j]
  }

  function Insert<T>(le: (T, T) -> bool, x: T, s: seq<T>): seq<T> {
    if s == [] || le(x, s[0]) then [x] + s else [s[0]] + Insert(le, x, s[1..])
  }

  function SortBy<T>(le: (T, T) -> bool, s: seq<T>): seq<T> {
    if s == [] then [] else Insert(le, s[0], SortBy(le, s[1..]))
  }

  lemma {:induction false} InsertPermutes<T>(le: (T, T) -> bool, x: T, s: seq<T>)
    ensures multiset(Insert(le, x, s)) == multiset(s) + multiset{x}
  {
    if s != [] && !le(x, s[0]) {
      InsertPermutes(le, x, s[1..]);
      assert s == [s[0]] + s[1..];
    }
  }

  lemma {:induction false} InsertSorts<T(!new)>(le: (T, T) -> bool, x: T, s: seq<T>)
    requires Total(le) && Transitive(le) && Sorted(le, s)
    ensures Sorted(le, Insert(le, x, s))
  {
    if s != [] && !le(x, s[0]) {
      var rest := Insert(le, x, s[1..]);
      InsertSorts(le, x, s[1..]);
      InsertPermutes(le, x, s[1..]);
      forall y | y in rest ensures le(s[0], y) {
        assert y in multiset(rest);
        assert y == x || y in s[1..];
      }
    } else if s != [] {
      forall y | y in s ensures le(x, y) {
        assert le(s[0], y) by { if y == s[0] { assert le(y, y); } }
      }
    }
  }

  lemma {:induction false} SortPermutes<T>(le: (T, T) -> bool, s: seq<T>)
    ensures multiset(SortBy(le, s)) == multiset(s)
  {
    if s != [] {
      SortPermutes(le, s[1..]);
      InsertPermutes(le, s[0], SortBy(le, s[1..]));
      assert s == [s[0]] + s[1..];
    }
  }

  lemma {:induction false} SortSorts<T(!new)>(le: (T, T) -> bool, s: seq<T>)
    requires Total(le) && Transitive(le)
    ensures Sorted(le, SortBy(le, s))
  {
    if s != [] {
      SortSorts(le, s[1..]);
      InsertSorts(le, s[0], SortBy(le, s[1..]));
    }
  }

  /** A permutation has the same length and the same members. */
  lemma SameMembers<T>(s: seq<T>, t: seq<T>)
    requires multiset(s) == multiset(t)
    ensures |s| == |t|
    ensures forall x :: x in s <==> x in t
  {
    assert |multiset(s)| == |multiset(t)|;
    forall x ensures x in s <==> x in t {
      assert x in s <==> x in multiset(s);
      assert x in t <==> x in multiset(t);
    }
  }

  lemma SortMembers<T>(le: (T, T) -> bool, s: seq<T>)
    ensures |SortBy(le, s)| == |s|
    ensures forall x :: x in SortBy(le, s) <==> x in s
  {
    SortPermutes(le, s);
    SameMembers(SortBy(le, s), s);
  }

  lemma SortedHeadsAgree<T>(le: (T, T) -> bool, a: seq<T>, b: seq<T>)
    requires multiset(a) == multiset(b) && Sorted(le, a) && Sorted(le, b) && AntisymmetricOn(le, a) && a != []
    ensures b != [] && a[0] == b[0]
  {
    SameMembers(a, b);
    assert a[0] in b && b[0] in a;
    var i :| 0 <= i < |b| && b[i] == a[0];
    var j :| 0 <= j < |a| && a[j] == b[0];
    if i != 0 && j != 0 {
      assert le(b[0], b[i]) && le(a[0], a[j]);
    }
  }

  lemma TailMultiset<T>(a: seq<T>)
    requires a != []
    ensures multiset(a[1..]) == multiset(a) - multiset{a[0]}
    ensures forall x :: x in a[1..] ==> x in a
  {
    assert a == [a[0]] + a[1..];
  }

  /** A sorted permutation is unique when the order is antisymmetric on the elements. */
  lemma {:induction false} SortedIsUnique<T>(le: (T, T) -> bool, a: seq<T>, b: seq<T>)
    requires multiset(a) == multiset(b) && Sorted(le, a) && Sorted(le, b) && AntisymmetricOn(le, a)
    ensures a == b
  {
    if a == [] {
      SameMembers(a, b);
    } else {
      SortedHeadsAgree(le, a, b);
      TailMultiset(a);
      TailMultiset(b);
      SortedIsUnique(le, a[1..], b[1..]);
      assert a == [a[0]] + a[1..] && b == [b[0]] + b[1..];
    }
  }

  /** Sorting forgets the input order as soon as no two different elements tie. */
  lemma SortForgetsOrder<T(!new)>(le: (T, T) -> bool, s: seq<T>, t: seq<T>)
    requires Total(le) && Transitive(le) && multiset(s) == multiset(t) && AntisymmetricOn(le, s)
    ensures SortBy(le, s) == SortBy(le, t)
  {
    SortPermutes(le, s);
    SortPermutes(le, t);
    SortSorts(le, s);
    SortSorts(le, t);
    SortMembers(le, s);
    SortedIsUnique(le, SortBy(le, s), SortBy(le, t));
  }

  function Filter<T(!new)>(p: T -> bool, s: seq<T>): (r: seq<T>)
    ensures |r| <= |s|
    ensures forall x :: x in r <==> x in s && p(x)
  {
    if s == [] then [] else
      var rest := Filter(p, s[1..]);
      if p(s[0]) then [s[0]] + rest else rest
  }

  lemma {:induction false} FilterMultiplicity<T(!new)>(p: T -> bool, s: seq<T>, x: T)
    ensures multiset(Filter(p, s))[x] == if p(x) then multiset(s)[x] else 0
  {
    if s != [] {
      FilterMultiplicity(p, s[1..], x);
      assert s == [s[0]] + s[1..];
    }
  }

  lemma FilterPermutes<T(!new)>(p: T -> bool, s: seq<T>, t: seq<T>)
    requires multiset(s) == multiset(t)
    ensures multiset(Filter(p, s)) == multiset(Filter(p, t))
  {
    forall x ensures multiset(Filter(p, s))[x] == multiset(Filter(p, t))[x] {
      FilterMultiplicity(p, s, x);
      FilterMultiplicity(p, t, x);
    }
  }

  lemma {:induction false} FilterConcat<T(!new)>(p: T -> bool, s: seq<T>, t: seq<T>)
    ensures Filter(p, s + t) == Filter(p, s) + Filter(p, t)
  {
    if s == [] {
      assert s + t == t;
    } else {
      assert (s + t)[1..] == s[1..] + t;
      FilterConcat(p, s[1..], t);
    }
  }

  lemma FilterSnoc<T(!new)>(p: T -> bool, s: seq<T>, n: nat)
    requires n < |s|
    ensures Filter(p, s[..n + 1]) == Filter(p, s[..n]) + if p(s[n]) then [s[n]] else []
  {
    assert s[..n + 1] == s[..n] + [s[n]];
    FilterConcat(p, s[..n], [s[n]]);
  }

  lemma {:induction false} InsertStable<T(!new)>(le: (T, T) -> bool, p: T -> bool, x: T, s: seq<T>)
    requires forall a, b :: p(a) && p(b) ==> le(a, b)
    ensures Filter(p, Insert(le, x, s)) == Filter(p, [x]) + Filter(p, s)
  {
    if s == [] || le(x, s[0]) {
      FilterConcat(p, [x], s);
    } else {
      InsertStable(le, p, x, s[1..]);
      FilterConcat(p, [s[0]], Insert(le, x, s[1..]));
      FilterConcat(p, [s[0]], s[1..]);
      assert s == [s[0]] + s[1..];
    }
  }

  /** Stability: elements that tie keep their input order. */
  lemma {:induction false} SortStable<T(!new)>(le: (T, T) -> bool, p: T -> bool, s: seq<T>)
    requires forall a, b :: p(a) && p(b) ==> le(a, b)
    ensures Filter(p, SortBy(le, s)) == Filter(p, s)
  {
    if s != [] {
      SortStable(le, p, s[1..]);
      InsertStable(le, p, s[0], SortBy(le, s[1..]));
      FilterConcat(p, [s[0]], s[1..]);
      assert s == [s[0]] + s[1..];
    }
  }

  lemma {:induction false} DistinctByMultiplicity<T(!new)>(s: seq<T>)
    requires forall x :: multiset(s)[x] <= 1
    ensures Distinct(s)
  {
    if s != [] {
      assert s == [s[0]] + s[1..];
      forall x ensures multiset(s[1..])[x] <= 1 {
        assert multiset(s)[x] == multiset([s[0]])[x] + multiset(s[1..])[x];
      }
      DistinctByMultiplicity(s[1..]);
      assert s[0] !in multiset(s[1..]) by { assert multiset(s)[s[0]] == 1 + multiset(s[1..])[s[0]]; }
    }
  }

  lemma {:induction false} MultiplicityOfDistinct<T(!new)>(s: seq<T>, x: T)
    requires Distinct(s)
    ensures multiset(s)[x] == if x in s then 1 else 0
  {
    if s != [] {
      assert s == [s[0]] + s[1..];
      MultiplicityOfDistinct(s[1..], x);
    }
  }

  /** Distinct sequences with the same members are permutations of each other. */
  lemma SameMembersPermute<T(!new)>(s: seq<T>, t: seq<T>)
    requires Distinct(s) && Distinct(t) && forall x :: x in s <==> x in t
    ensures multiset(s) == multiset(t)
  {
    forall x ensures multiset(s)[x] == multiset(t)[x] {
      MultiplicityOfDistinct(s, x);
      MultiplicityOfDistinct(t, x);
    }
  }

  lemma DistinctIncluded<T(!new)>(a: seq<T>, b: seq<T>)
    requires Distinct(a) && forall x :: x in a ==> x in b
    ensures |a| <= |b|
  {
    forall x ensures multiset(a)[x] <= multiset(b)[x] { MultiplicityOfDistinct(a, x); }
    assert multiset(b) == multiset(a) + (multiset(b) - multiset(a));
    assert |multiset(b)| == |multiset(a)| + |multiset(b) - multiset(a)|;
  }

  /** Elements with distinct keys still have them in any other order. */
  lemma PermutationKeepsDistinctKeys<T(!new), K>(key: T -> K, s: seq<T>, t: seq<T>)
    requires multiset(s) == multiset(t) && forall i, j :: 0 <= i < j < |s| ==> key(s[i]) != key(s[j])
    ensures forall i, j :: 0 <= i < j < |t| ==> key(t[i]) != key(t[j])
  {
    assert forall i, j :: 0 <= i < j < |s| ==> s[i] != s[j];
    SameMembers(s, t);
    forall x ensures multiset(t)[x] <= 1 { MultiplicityOfDistinct(s, x); }
    DistinctByMultiplicity(t);
    forall i, j | 0 <= i < j < |t| ensures key(t[i]) != key(t[j]) {
      assert t[i] in s && t[j] in s;
    }
  }

  lemma DistinctSurvivesSorting<T(!new)>(le: (T, T) -> bool, s: seq<T>)
    requires Distinct(s)
    ensures Distinct(SortBy(le, s))
  {
    SortPermutes(le, s);
    forall x ensures multiset(SortBy(le, s))[x] <= 1 { MultiplicityOfDistinct(s, x); }
    DistinctByMultiplicity(SortBy(le, s));
  }

  lemma DistinctSurvivesFilter<T(!new)>(p: T -> bool, s: seq<T>)
    requires Distinct(s)
    ensures Distinct(Filter(p, s))
  {
    forall x ensures multiset(Filter(p, s))[x] <= 1 {
      FilterMultiplicity(p, s, x);
      MultiplicityOfDistinct(s, x);
    }
    DistinctByMultiplicity(Filter(p, s));
  }

  /** Lexicographic order of strings by code point, the order Python compares `str` with. */
  predicate LexLe(a: string, b: string) {
    a == [] || (b != [] && (a[0] < b[0] || (a[0] == b[0] && LexLe(a[1..], b[1..]))))
  }

  /** Where two strings first differ decides; one that never differs is a prefix. */
  lemma {:induction false} LexLeMeaning(a: string, b: string)
    ensures LexLe(a, b) <==> a <= b || exists i :: DecidesAt(a, b, i)
  {
    if a != [] && b != [] {
      DecidesAtHeadOrLater(a, b);
      if a[0] == b[0] { LexLeMeaning(a[1..], b[1..]); }
      assert a == [a[0]] + a[1..] && b == [b[0]] + b[1..];
    }
  }

  ghost predicate DecidesAt(a: string, b: string, i: int) {
    0 <= i < |a| && i < |b| && a[..i] == b[..i] && a[i] < b[i]
  }

  lemma DecidesAtHeadOrLater(a: string, b: string)
    requires a != [] && b != []
    ensures DecidesAt(a, b, 0) <==> a[0] < b[0]
    ensures forall i :: i > 0 ==> (DecidesAt(a, b, i) <==> a[0] == b[0] && DecidesAt(a[1..], b[1..], i - 1))
    ensures forall i :: DecidesAt(a[1..], b[1..], i) && a[0] == b[0] ==> DecidesAt(a, b, i + 1)
  {
    forall i | 0 < i <= |a| && i <= |b| ensures a[..i] == b[..i] <==> a[0] == b[0] && a[1..][..i - 1] == b[1..][..i - 1]
    {
      assert a[..i] == [a[0]] + a[1..][..i - 1] && b[..i] == [b[0]] + b[1..][..i - 1];
      assert a[..i][1..] == a[1..][..i - 1] && b[..i][1..] == b[1..][..i - 1];
    }
  }

  lemma {:induction false} LexTotal(a: string, b: string)
    ensures LexLe(a, b) || LexLe(b, a)
  {
    if a != [] && b != [] { LexTotal(a[1..], b[1..]); }
  }

  lemma {:induction false} LexTransitive(a: string, b: string, c: string)
    requires LexLe(a, b) && LexLe(b, c)
    ensures LexLe(a, c)
  {
    if a != [] && b != [] && c != [] && a[0] == b[0] == c[0] { LexTransitive(a[1..], b[1..], c[1..]); }
  }

  lemma {:induction false} LexAntisymmetric(a: string, b: string)
    requires LexLe(a, b) && LexLe(b, a)
    ensures a == b
  {
    if a != [] {
      LexAntisymmetric(a[1..], b[1..]);
      assert a == [a[0]] + a[1..] && b == [b[0]] + b[1..];
    }
  }

  lemma LexOrder()
    ensures Total(LexLe) && Transitive(LexLe)
    ensures forall a, b :: LexLe(a, b) && LexLe(b, a) ==> a == b
  {
    forall a, b ensures LexLe(a, b) || LexLe(b, a) { LexTotal(a, b); }
    forall a, b, c | LexLe(a, b) && LexLe(b, c) ensures LexLe(a, c) { LexTransitive(a, b, c); }
    forall a, b | LexLe(a, b) && LexLe(b, a) ensures a == b { LexAntisymmetric(a, b); }
  }

  // ----- sorted(set(...)) on strings -----

  function InsertDistinct(x: string, s: seq<string>): seq<string> {
    if s == [] then [x]
    else if x == s[0] then s
    else if LexLe(x, s[0]) then [x] + s
    else [s[0]] + InsertDistinct(x, s[1..])
  }

  /** `sorted({...})`: the distinct strings in ascending order. */
  function SortedDistinct(s: seq<string>): seq<string> {
    if s == [] then [] else InsertDistinct(s[0], SortedDistinct(s[1..]))
  }

  ghost predicate StrictlySorted(s: seq<string>) {
    forall i, j :: 0 <= i < j < |s| ==> LexLe(s[i], s[j]) && s[i] != s[j]
  }

  lemma {:induction false} InsertDistinctMembers(x: string, s: seq<string>)
    ensures forall y :: y in InsertDistinct(x, s) <==> y == x || y in s
  {
    hide LexLe;
    if s != [] && x != s[0] && !LexLe(x, s[0]) { InsertDistinctMembers(x, s[1..]); }
  }

  lemma {:induction false} InsertDistinctSorts(x: string, s: seq<string>)
    requires StrictlySorted(s)
    ensures StrictlySorted(InsertDistinct(x, s))
  {
    hide LexLe;
    if s != [] && x != s[0] {
      LexTotal(x, s[0]);
      if LexLe(x, s[0]) {
        forall i | 0 < i < |s| ensures LexLe(x, s[i]) && x != s[i] {
          assert LexLe(s[0], s[i]);
          LexTransitive(x, s[0], s[i]);
          if x == s[i] { LexAntisymmetric(s[0], s[i]); }
        }
      } else {
        InsertDistinctSorts(x, s[1..]);
        InsertDistinctMembers(x, s[1..]);
        var rest := InsertDistinct(x, s[1..]);
        forall i | 0 <= i < |rest| ensures LexLe(s[0], rest[i]) && s[0] != rest[i] {
          assert rest[i] in rest;
        }
      }
    }
  }

  lemma {:induction false} SortedDistinctFacts(s: seq<string>)
    ensures StrictlySorted(SortedDistinct(s))
    ensures forall y :: y in SortedDistinct(s) <==> y in s
  {
    if s != [] {
      SortedDistinctFacts(s[1..]);
      InsertDistinctSorts(s[0], SortedDistinct(s[1..]));
      InsertDistinctMembers(s[0], SortedDistinct(s[1..]));
    }
  }

  lemma SameLeast(a: seq<string>, b: seq<string>)
    requires StrictlySorted(a) && StrictlySorted(b) && a != [] && b != [] && a[0] in b && b[0] in a
    ensures a[0] == b[0]
  {
    hide LexLe;
    var i :| 0 <= i < |b| && b[i] == a[0];
    var j :| 0 <= j < |a| && a[j] == b[0];
    if i != 0 && j != 0 { LexAntisymmetric(a[0], b[0]); }
  }

  lemma NoMembers<T(!new)>(s: seq<T>)
    requires forall y :: y !in s
    ensures s == []
  {
    assert forall y :: y in multiset(s) ==> y in s;
    assert |multiset(s)| == 0;
  }

  /** A strictly sorted sequence is determined by its members. */
  lemma {:induction false} StrictlySortedIsUnique(a: seq<string>, b: seq<string>)
    requires StrictlySorted(a) && StrictlySorted(b) && forall y :: y in a <==> y in b
    ensures a == b
  {
    hide LexLe;
    if a != [] {
      assert a[0] in b && b[0] in a;
      SameLeast(a, b);
      forall y ensures y in a[1..] <==> y in b[1..] {
        assert y in a[1..] <==> y in a && y != a[0];
        assert y in b[1..] <==> y in b && y != b[0];
      }
      StrictlySortedIsUnique(a[1..], b[1..]);
      assert a == [a[0]] + a[1..] && b == [b[0]] + b[1..];
    } else {
      NoMembers(b);
    }
  }

  /** `sorted(set(s))` depends on the set only. */
  lemma SameSetSameSorted(s: seq<string>, t: seq<string>)
    requires forall y :: y in s <==> y in t
    ensures SortedDistinct(s) == SortedDistinct(t)
  {
    SortedDistinctFacts(s);
    SortedDistinctFacts(t);
    StrictlySortedIsUnique(SortedDistinct(s), SortedDistinct(t));
  }

  /** A strictly sorted list is its own sorted form, and that of any list with its members. */
  lemma SortedFormIs(s: seq<string>, a: seq<string>)
    requires StrictlySorted(a) && forall y :: y in s <==> y in a
    ensures SortedDistinct(s) == a
  {
    hide LexLe;
    SortedDistinctFacts(s);
    StrictlySortedIsUnique(SortedDistinct(s), a);
  }

  /** Sorting with and without repeats agree exactly for lists without repeats. */
  lemma SortedWithRepeatsExactlyWhen(s: seq<string>)
    ensures SortedDistinct(s) == SortBy(LexLe, s) <==> Distinct(s)
  {
    hide LexLe, SortedDistinct, SortBy;
    SortedDistinctFacts(s);
    SortPermutes(LexLe, s);
    SortMembers(LexLe, s);
    LexOrder();
    SortSorts(LexLe, s);
    if Distinct(s) {
      DistinctSurvivesSorting(LexLe, s);
      SortedFormIs(s, SortBy(LexLe, s));
    } else if SortedDistinct(s) == SortBy(LexLe, s) {
      PermutationKeepsDistinctKeys((x: string) => x, SortBy(LexLe, s), s);
      assert false;
    }
  }
}
