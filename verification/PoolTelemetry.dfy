/** The connection pool's queue-wait statistics and its high-utilisation warnings. */
module PoolTelemetry {
  import opened Rounding
  import opened Wrappers

  datatype PoolStatus = PoolStatus(size: nat, maxOverflow: int, checkedOut: nat, overflow: int)

  /** One pool event: what happened, and the pool as it was then. */
  datatype Activity = Activity(event: string, pool: PoolStatus)

  datatype Signature = Signature(event: string, checkedOut: nat, overflow: nat, utilizationPct: int)

  function Overflow(p: PoolStatus): nat {
    if p.overflow < 0 then 0 else p.overflow
  }

  /** The share of the pool in use; with unlimited overflow, of what it holds now. */
  function Utilization(p: PoolStatus): real {
    var capacity := if p.maxOverflow < 0 then p.size + Overflow(p) else p.size + p.maxOverflow;
    p.checkedOut as real / (if capacity < 1 then 1 else capacity) as real
  }

  predicate High(a: Activity) {
    Utilization(a.pool) >= 0.8
  }

  /** Slots a pool can hand out: with a bounded overflow all of it, else what it holds now, and at least one. */
  predicate HasSlots(p: PoolStatus, slots: int) {
    var overflow := if p.maxOverflow >= 0 then p.maxOverflow else if p.overflow > 0 then p.overflow else 0;
    slots == if p.size + overflow >= 1 then p.size + overflow else 1
  }

  /** Utilisation is the share of those slots checked out, and is high from four fifths on. */
  lemma UtilizationMeaning(a: Activity, slots: int)
    requires HasSlots(a.pool, slots)
    ensures Utilization(a.pool) * slots as real == a.pool.checkedOut as real
    ensures High(a) <==> 5 * a.pool.checkedOut >= 4 * slots
  {
    ShareOf(a.pool.checkedOut, slots);
    assert Utilization(a.pool) == a.pool.checkedOut as real / slots as real;
  }

  lemma ShareOf(x: nat, slots: int)
    requires slots >= 1
    ensures x as real / slots as real * slots as real == x as real
    ensures x as real / slots as real >= 0.8 <==> 5 * x >= 4 * slots
  {
    var share := x as real / slots as real;
    assert share * slots as real == x as real;
    if share >= 0.8 {
      assert share * slots as real >= 0.8 * slots as real;
    } else {
      assert share * slots as real < 0.8 * slots as real;
    }
  }

  function SignatureOf(a: Activity): Signature {
    Signature(a.event, a.pool.checkedOut, Overflow(a.pool), Round(Utilization(a.pool) * 100.0))
  }

  /** Two activities count as the same when event, slots checked out, overflow above zero and whole percentage agree. */
  lemma SameSignatureExactlyWhen(a: Activity, b: Activity)
    ensures SignatureOf(a) == SignatureOf(b) <==>
            a.event == b.event && a.pool.checkedOut == b.pool.checkedOut &&
            (a.pool.overflow == b.pool.overflow || (a.pool.overflow <= 0 && b.pool.overflow <= 0)) &&
            Round(Utilization(a.pool) * 100.0) == Round(Utilization(b.pool) * 100.0)
  {
    hide Utilization, Round;
  }

  // ----- what the fields mean, over the whole history -----

  function Sum(samples: seq<real>): real {
    if samples == [] then 0.0 else Sum(samples[..|samples| - 1]) + samples[|samples| - 1]
  }

  /** The largest sample, never below zero. */
  function Largest(samples: seq<real>): real {
    if samples == [] then 0.0
    else
      var before := Largest(samples[..|samples| - 1]);
      if before < samples[|samples| - 1] then samples[|samples| - 1] else before
  }

  /** The average times the number of samples is their sum. */
  predicate IsAverage(average: real, samples: seq<real>) {
    average * |samples| as real == Sum(samples)
  }

  /** An activity is worth a warning when it is high and does not repeat the one just before it. */
  predicate Warns(history: seq<Activity>, a: Activity) {
    High(a) && !(history != [] && High(history[|history| - 1]) && SignatureOf(history[|history| - 1]) == SignatureOf(a))
  }

  class PoolState {
    var lastWait: real
    var averageWait: real
    var maxWait: real
    var samples: nat
    var lastWarning: Option<Signature>
    ghost var waits: seq<real>
    ghost var activities: seq<Activity>

    ghost predicate Valid()
      reads this
    {
      && samples == |waits| && IsAverage(averageWait, waits) && maxWait == Largest(waits)
      && lastWait == (if waits == [] then 0.0 else waits[|waits| - 1])
      && lastWarning == if activities != [] && High(activities[|activities| - 1])
                        then Some(SignatureOf(activities[|activities| - 1])) else None
    }

    constructor ()
      ensures Valid() && waits == [] && activities == []
    {
      lastWait, averageWait, maxWait, samples, lastWarning := 0.0, 0.0, 0.0, 0, None;
      waits, activities := [], [];
    }

    /** One sample more: the running average times the count is still the sum of them all. */
    method RecordWait(wait: real)
      requires Valid()
      modifies `lastWait, `averageWait, `maxWait, `samples, `waits
      ensures Valid() && waits == old(waits) + [wait]
    {
      hide IsAverage, Largest, Sum, High, SignatureOf;
      AverageStep(averageWait, waits, wait);
      LargestSnoc(waits, wait);
      lastWait := wait;
      samples := samples + 1;
      if samples == 1 {
        averageWait := wait;
      } else {
        averageWait := averageWait + (wait - averageWait) / samples as real;
      }
      maxWait := if maxWait < wait then wait else maxWait;
      waits := waits + [wait];
    }

    /** Whether this activity is logged; the debounce remembers exactly the activity before it. */
    method RecordActivity(a: Activity) returns (warned: bool)
      requires Valid()
      modifies `lastWarning, `activities
      ensures Valid() && activities == old(activities) + [a]
      ensures warned == Warns(old(activities), a)
    {
      hide Utilization, SignatureOf, Sum, Largest;
      var signature := SignatureOf(a);
      var high := High(a);
      activities := activities + [a];
      if !high {
        lastWarning := None;
        return false;
      }
      if lastWarning == Some(signature) {
        return false;
      }
      lastWarning := Some(signature);
      return true;
    }
  }

  /** The running update keeps the average an average; the first sample is its own. */
  lemma AverageStep(average: real, samples: seq<real>, x: real)
    requires IsAverage(average, samples)
    ensures IsAverage(average + (x - average) / (|samples| + 1) as real, samples + [x])
    ensures samples == [] ==> IsAverage(x, samples + [x])
  {
    assert (samples + [x])[..|samples|] == samples;
    StepTimesCount(average, x, |samples|);
  }

  lemma StepTimesCount(average: real, x: real, n: nat)
    ensures (average + (x - average) / (n + 1) as real) * (n + 1) as real == average * n as real + x
  {
    var m := (n + 1) as real;
    assert (x - average) / m * m == x - average;
    assert (average + (x - average) / m) * m == average * m + (x - average) / m * m;
    assert average * m == average * n as real + average;
  }

  lemma LargestSnoc(samples: seq<real>, x: real)
    ensures Largest(samples + [x]) == if Largest(samples) < x then x else Largest(samples)
  {
    assert (samples + [x])[..|samples|] == samples;
  }

  /** The largest sample is one of them (or zero), and no sample exceeds it. */
  lemma {:induction false} LargestIsMaximum(samples: seq<real>)
    ensures forall x :: x in samples ==> x <= Largest(samples)
    ensures Largest(samples) == 0.0 || Largest(samples) in samples
  {
    if samples != [] {
      var before := samples[..|samples| - 1];
      LargestIsMaximum(before);
      assert samples == before + [samples[|samples| - 1]];
    }
  }

  /** Every moment of a busy stretch that differs from the one before it is warned about, and a repeat never is. */
  function Warnings(activities: seq<Activity>): nat {
    if activities == [] then 0
    else
      var n := |activities| - 1;
      Warnings(activities[..n]) + if Warns(activities[..n], activities[n]) then 1 else 0
  }

  /** However long a busy stretch repeats one activity, it is warned about once. */
  lemma {:induction false} RepeatsWarnOnce(before: seq<Activity>, a: Activity, n: nat)
    requires High(a) && n > 0
    ensures Warnings(before + seq(n, i => a)) == Warnings(before) + if Warns(before, a) then 1 else 0
  {
    hide Utilization, SignatureOf;
    var run := before + seq(n, i => a);
    assert run[..|run| - 1] == before + seq(n - 1, i => a);
    if n > 1 {
      RepeatsWarnOnce(before, a, n - 1);
      assert (before + seq(n - 1, i => a))[|before| + n - 2] == a;
    } else {
      assert before + seq(0, i => a) == before;
    }
  }
}
