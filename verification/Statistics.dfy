/** The summary statistics of a list of durations: average, median, 95th percentile and maximum. */
module Statistics {
  import opened Ordering
  import opened Rounding

  datatype Stats = Stats(avg: real, p50: real, p95: real, max: real)

  predicate RealLe(a: real, b: real) {
    a <= b
  }

  function Ranked(values: seq<real>): (r: seq<real>) {
    SortBy(RealLe, values)
  }

  function Total(values: seq<real>): real {
    if values == [] then 0.0 else values[0] + Total(values[1..])
  }

  function Largest(values: seq<real>): real
    requires values != []
  {
    if |values| == 1 then values[0]
    else
      var rest := Largest(values[1..]);
      if rest < values[0] then values[0] else rest
  }

  /** The rank of a quantile among n ordered values, rounded half to even. */
  function Rank(n: nat, quantile: real): (i: nat)
    requires n > 0
    ensures i < n
  {
    var i := Round((n - 1) as real * quantile);
    if i < 0 then 0 else if i > n - 1 then n - 1 else i
  }

  lemma RankedLength(values: seq<real>)
    ensures |Ranked(values)| == |values|
    ensures forall x :: x in Ranked(values) <==> x in values
  {
    SortMembers(RealLe, values);
  }

  function Percentile(values: seq<real>, quantile: real): real {
    if values == [] then 0.0
    else
      RankedLength(values);
      Ranked(values)[Rank(|values|, quantile)]
  }

  function Median(values: seq<real>): real
    requires values != []
  {
    RankedLength(values);
    var n := |values|;
    if n % 2 == 1 then Ranked(values)[n / 2] else (Ranked(values)[n / 2 - 1] + Ranked(values)[n / 2]) / 2.0
  }

  /** The middle value in order, or half the sum of the two middle ones. */
  lemma MedianMeaning(values: seq<real>, half: nat)
    requires values != []
    ensures |Ranked(values)| == |values|
    ensures |values| == 2 * half + 1 ==> Median(values) == Ranked(values)[half]
    ensures |values| == 2 * half ==> 2.0 * Median(values) == Ranked(values)[half - 1] + Ranked(values)[half]
  {
    RankedLength(values);
  }

  /** `_summary_stats`. */
  function Summary(values: seq<real>): Stats {
    if values == [] then Stats(0.0, 0.0, 0.0, 0.0)
    else Stats(RoundTo3(Total(values) / |values| as real), RoundTo3(Median(values)),
               RoundTo3(Percentile(values, 0.95)), RoundTo3(Largest(values)))
  }

  lemma RealOrder()
    ensures Ordering.Total(RealLe) && Transitive(RealLe)
    ensures forall s :: AntisymmetricOn(RealLe, s)
  {
  }

  lemma RankedIsSorted(values: seq<real>)
    ensures forall i, j :: 0 <= i <= j < |values| == |Ranked(values)| ==> Ranked(values)[i] <= Ranked(values)[j]
  {
    RealOrder();
    RankedLength(values);
    SortSorts(RealLe, values);
    forall i, j | 0 <= i < j < |values| ensures Ranked(values)[i] <= Ranked(values)[j] {
      assert RealLe(Ranked(values)[i], Ranked(values)[j]);
    }
  }

  lemma {:induction false} LargestIsMaximum(values: seq<real>)
    requires values != []
    ensures Largest(values) in values && forall x :: x in values ==> x <= Largest(values)
  {
    if |values| > 1 {
      LargestIsMaximum(values[1..]);
      assert values == [values[0]] + values[1..];
    }
  }

  lemma {:induction false} TotalIsBounded(values: seq<real>, bound: real)
    requires forall x :: x in values ==> x <= bound
    ensures Total(values) <= |values| as real * bound
  {
    if values != [] {
      assert forall x :: x in values[1..] ==> x in values;
      TotalIsBounded(values[1..], bound);
      var n := (|values| - 1) as real;
      assert |values[1..]| as real == n && |values| as real == n + 1.0;
      assert values[0] in values;
      OneMore(n, bound);
    }
  }

  lemma OneMore(n: real, bound: real)
    ensures (n + 1.0) * bound == n * bound + bound
  {
  }

  lemma Scaled(factor: real, x: real, y: real)
    requires factor >= 0.0 && x <= y
    ensures factor * x <= factor * y
  {
    assert factor * y - factor * x == factor * (y - x);
  }

  lemma AverageIsBounded(total: real, n: nat, bound: real)
    requires n > 0 && total <= n as real * bound
    ensures total / n as real <= bound
  {
    var m := n as real;
    assert bound == (m * bound) / m;
    Scaled(1.0 / m, total, m * bound);
    assert total / m == (1.0 / m) * total && (m * bound) / m == (1.0 / m) * (m * bound);
  }

  /** From two values on, the 95th percentile's rank is at or past the upper middle. */
  lemma RankPastMiddle(n: nat)
    requires n > 0
    ensures n / 2 <= Rank(n, 0.95)
  {
    var exact := (n - 1) as real * 0.95;
    RoundIsNearest(exact);
    if n == 1 {
      RoundIsMonotone(0.0, exact);
    } else if n == 2 {
      assert Round(exact) == 1;
    } else {
      assert exact - 0.5 <= Round(exact) as real;
    }
  }

  /** In every summary of at least one value the median is at most the 95th percentile, which is at most the maximum,
      and so is the average; rounding to three places keeps it so. */
  lemma SummaryIsOrdered(values: seq<real>)
    requires values != []
    ensures Median(values) <= Percentile(values, 0.95) <= Largest(values)
    ensures Total(values) / |values| as real <= Largest(values)
    ensures var s := Summary(values); s.p50 <= s.p95 <= s.max && s.avg <= s.max
  {
    hide Ranked, RoundTo3, Total, Largest, Rank;
    RankedLength(values);
    RankedIsSorted(values);
    LargestIsMaximum(values);
    RankPastMiddle(|values|);
    assert Percentile(values, 0.95) in Ranked(values);
    TotalIsBounded(values, Largest(values));
    AverageIsBounded(Total(values), |values|, Largest(values));
    RoundTo3IsMonotone(Median(values), Percentile(values, 0.95));
    RoundTo3IsMonotone(Percentile(values, 0.95), Largest(values));
    RoundTo3IsMonotone(Total(values) / |values| as real, Largest(values));
  }

  /** A percentile is one of the values, grows with its quantile, and at 1 is the maximum. */
  lemma PercentileFacts(values: seq<real>, q: real, r: real)
    requires values != [] && q <= r
    ensures Percentile(values, q) in values
    ensures Percentile(values, q) <= Percentile(values, r)
    ensures Percentile(values, 1.0) == Largest(values)
  {
    hide Ranked, Largest, Round;
    RankedLength(values);
    RankedIsSorted(values);
    LargestIsMaximum(values);
    Scaled((|values| - 1) as real, q, r);
    RoundIsMonotone((|values| - 1) as real * q, (|values| - 1) as real * r);
    RoundIsNearest((|values| - 1) as real);
    assert Percentile(values, q) in Ranked(values);
    var i :| 0 <= i < |values| && Ranked(values)[i] == Largest(values);
    assert Percentile(values, 1.0) in Ranked(values);
  }

  lemma {:induction false} TotalOfInsert(x: real, values: seq<real>)
    ensures Total(Insert(RealLe, x, values)) == x + Total(values)
  {
    if values != [] && !RealLe(x, values[0]) {
      TotalOfInsert(x, values[1..]);
    }
  }

  lemma {:induction false} TotalOfRanked(values: seq<real>)
    ensures Total(Ranked(values)) == Total(values)
  {
    if values != [] {
      TotalOfRanked(values[1..]);
      TotalOfInsert(values[0], Ranked(values[1..]));
    }
  }

  /** A summary does not depend on the order of its values. */
  lemma SummaryForgetsOrder(values: seq<real>, others: seq<real>)
    requires multiset(values) == multiset(others)
    ensures Summary(values) == Summary(others)
  {
    hide Ranked, RoundTo3, Total, Largest, Rank;
    SameMembers(values, others);
    RealOrder();
    assert Ranked(values) == Ranked(others) by { RankedForgets(values, others); }
    TotalOfRanked(values);
    TotalOfRanked(others);
    if values != [] {
      LargestIsMaximum(values);
      LargestIsMaximum(others);
    }
  }

  lemma RankedForgets(values: seq<real>, others: seq<real>)
    requires multiset(values) == multiset(others)
    ensures Ranked(values) == Ranked(others)
  {
    RealOrder();
    SortForgetsOrder(RealLe, values, others);
  }
}
