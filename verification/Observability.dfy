/** The trimmed record buffers of requests and worker jobs, and the summaries computed from them. */
module Observability {
  import Grouping
  import opened Ordering
  import opened Statistics
  import opened Wrappers

  datatype JobStatus = Running | Completed | Failed

  /** How the observed block ended; an interruption is no `Exception`, so the job is recorded as still running. */
  datatype Outcome = Finished | Raised(error: string) | Interrupted

  datatype WorkerRecord = WorkerRecord(
    kind: string, job: string, status: JobStatus, errorType: Option<string>, duration: real)

  datatype JobKey = JobKey(kind: string, job: string)

  datatype JobSummary = JobSummary(key: JobKey, count: nat, failed: nat, duration: Stats)

  // ----- buffers -----

  /** The last `max` elements. */
  function LastOf<T>(history: seq<T>, max: nat): seq<T> {
    if |history| <= max then history else history[|history| - max..]
  }

  lemma LastSnoc<T>(history: seq<T>, max: nat, x: T)
    ensures var kept := LastOf(history, max) + [x];
      LastOf(history + [x], max) == if |kept| > max then kept[|kept| - max..] else kept
  {
  }

  /** One observation since the last reset: its record, and whether it counted as a failed refresh. */
  datatype Observed = Observed(record: WorkerRecord, counted: bool)

  function RecordsOf(history: seq<Observed>): seq<WorkerRecord> {
    seq(|history|, i requires 0 <= i < |history| => history[i].record)
  }

  function CountedFailures(history: seq<Observed>): nat {
    |Filter((o: Observed) => o.counted, history)|
  }

  /** The record an observation leaves. */
  function RecordOf(kind: string, job: string, outcome: Outcome, duration: real): WorkerRecord {
    match outcome
    case Finished => WorkerRecord(kind, job, Completed, None, duration)
    case Raised(error) => WorkerRecord(kind, job, Failed, Some(error), duration)
    case Interrupted => WorkerRecord(kind, job, Running, None, duration)
  }

  class WorkerLog {
    var records: seq<WorkerRecord>
    var failedRefreshes: nat
    const maxRecords: nat
    ghost var history: seq<Observed>

    /** The buffer is the last records since the reset; the total counts every failed refresh since then. */
    ghost predicate Valid()
      reads this
    {
      records == LastOf(RecordsOf(history), maxRecords) && failedRefreshes == CountedFailures(history)
    }

    constructor (maxRecords: nat)
      ensures Valid() && history == [] && this.maxRecords == maxRecords
    {
      records, failedRefreshes, history := [], 0, [];
      this.maxRecords := maxRecords;
    }

    /** `observe_worker_job` around one block. */
    method Observe(kind: string, job: string, countFailure: bool, outcome: Outcome, duration: real)
      requires Valid()
      modifies this
      ensures Valid()
      ensures history ==
              old(history) + [Observed(RecordOf(kind, job, outcome, duration), countFailure && outcome.Raised?)]
    {
      hide LastOf;
      var status, errorType := Running, None;
      match outcome {
        case Finished => status := Completed;
        case Raised(error) =>
          status, errorType := Failed, Some(error);
          if countFailure {
            failedRefreshes := failedRefreshes + 1;
          }
        case Interrupted =>
      }
      var record := WorkerRecord(kind, job, status, errorType, duration);
      LastSnoc(RecordsOf(history), maxRecords, record);
      HistorySnoc(history, Observed(record, countFailure && outcome.Raised?));
      records := records + [record];
      if |records| > maxRecords {
        records := records[|records| - maxRecords..];
      }
      history := history + [Observed(record, countFailure && outcome.Raised?)];
    }

    method Reset() returns (cleared: nat)
      requires Valid()
      modifies this
      ensures Valid() && history == [] && cleared == |old(records)|
    {
      cleared := |records|;
      records, failedRefreshes, history := [], 0, [];
    }
  }

  lemma HistorySnoc(history: seq<Observed>, o: Observed)
    ensures RecordsOf(history + [o]) == RecordsOf(history) + [o.record]
    ensures CountedFailures(history + [o]) == CountedFailures(history) + if o.counted then 1 else 0
  {
    FilterConcat((x: Observed) => x.counted, history, [o]);
  }

  /** The total also counts failures whose records were trimmed away, so it is at least what the buffer still shows. */
  lemma TotalCoversBuffer(history: seq<Observed>, max: nat)
    ensures CountedFailures(LastOf(history, max)) <= CountedFailures(history)
    ensures LastOf(RecordsOf(history), max) == RecordsOf(LastOf(history, max))
  {
    if |history| > max {
      var dropped := |history| - max;
      assert history == history[..dropped] + history[dropped..];
      FilterConcat((x: Observed) => x.counted, history[..dropped], history[dropped..]);
    }
  }

  // ----- worker summaries -----

  function KeyOf(r: WorkerRecord): JobKey {
    JobKey(r.kind, r.job)
  }

  predicate HasFailed(r: WorkerRecord) {
    r.status == Failed
  }

  function Durations(records: seq<WorkerRecord>): seq<real> {
    seq(|records|, i requires 0 <= i < |records| => records[i].duration)
  }

  /** The summary of one job's records. */
  function SummaryOf(records: seq<WorkerRecord>, key: JobKey): JobSummary {
    var mine := Grouping.Group(KeyOf, records, key);
    JobSummary(key, |mine|, |Filter(HasFailed, mine)|, Summary(Durations(mine)))
  }

  /** Most failures first, then the slowest; ties keep their order. */
  predicate MoreUrgent(a: JobSummary, b: JobSummary) {
    a.failed > b.failed || (a.failed == b.failed && a.duration.p95 >= b.duration.p95)
  }

  function InKeyOrder(records: seq<WorkerRecord>, keys: seq<JobKey>): seq<JobSummary> {
    seq(|keys|, i requires 0 <= i < |keys| => SummaryOf(records, keys[i]))
  }

  function JobSummaries(records: seq<WorkerRecord>): seq<JobSummary> {
    SortBy(MoreUrgent, InKeyOrder(records, Grouping.KeyOrder(KeyOf, records)))
  }

  method CountFailed(records: seq<WorkerRecord>) returns (failed: nat)
    ensures failed == |Filter(HasFailed, records)|
  {
    failed := 0;
    for i := 0 to |records|
      invariant failed == |Filter(HasFailed, records[..i])|
    {
      FilterConcat(HasFailed, records[..i], [records[i]]);
      assert records[..i + 1] == records[..i] + [records[i]];
      if records[i].status == Failed {
        failed := failed + 1;
      }
    }
    assert records[..|records|] == records;
  }

  /** `_summarize_workers`. */
  method SummarizeWorkers(records: seq<WorkerRecord>) returns (summaries: seq<JobSummary>)
    ensures summaries == JobSummaries(records)
  {
    hide Grouping.Group, Grouping.KeyOrder, Summary;
    var grouped, order := Grouping.GroupBy(KeyOf, records);
    summaries := [];
    for i := 0 to |order|
      invariant summaries == InKeyOrder(records, order)[..i]
    {
      var mine := grouped[order[i]];
      var failed := CountFailed(mine);
      summaries := summaries + [JobSummary(order[i], |mine|, failed, Summary(Durations(mine)))];
    }
    assert summaries == InKeyOrder(records, order);
    summaries := SortBy(MoreUrgent, summaries);
  }

  // ----- what the summaries show -----

  function TotalOf(weight: JobSummary -> nat, summaries: seq<JobSummary>): nat {
    if summaries == [] then 0 else weight(summaries[0]) + TotalOf(weight, summaries[1..])
  }

  function CountWeight(s: JobSummary): nat {
    s.count
  }

  function FailedWeight(s: JobSummary): nat {
    s.failed
  }

  lemma {:induction false} TotalOfInsert(weight: JobSummary -> nat, x: JobSummary, s: seq<JobSummary>)
    ensures TotalOf(weight, Insert(MoreUrgent, x, s)) == weight(x) + TotalOf(weight, s)
  {
    hide MoreUrgent;
    if s != [] && !MoreUrgent(x, s[0]) {
      TotalOfInsert(weight, x, s[1..]);
    }
  }

  lemma {:induction false} TotalOfSorted(weight: JobSummary -> nat, s: seq<JobSummary>)
    ensures TotalOf(weight, SortBy(MoreUrgent, s)) == TotalOf(weight, s)
  {
    hide MoreUrgent;
    if s != [] {
      TotalOfSorted(weight, s[1..]);
      TotalOfInsert(weight, s[0], SortBy(MoreUrgent, s[1..]));
    }
  }

  lemma {:induction false} TotalSnoc(weight: JobSummary -> nat, s: seq<JobSummary>, x: JobSummary)
    ensures TotalOf(weight, s + [x]) == TotalOf(weight, s) + weight(x)
  {
    if s == [] {
      assert s + [x] == [x];
    } else {
      assert (s + [x])[1..] == s[1..] + [x];
      TotalSnoc(weight, s[1..], x);
    }
  }

  lemma {:induction false} TotalsInKeyOrder(records: seq<WorkerRecord>, keys: seq<JobKey>)
    ensures TotalOf(CountWeight, InKeyOrder(records, keys)) ==
            Grouping.CountIn(KeyOf, (r: WorkerRecord) => true, records, keys)
    ensures TotalOf(FailedWeight, InKeyOrder(records, keys)) == Grouping.CountIn(KeyOf, HasFailed, records, keys)
  {
    hide Grouping.Group, Summary;
    if keys != [] {
      var before := keys[..|keys| - 1];
      var last := SummaryOf(records, keys[|keys| - 1]);
      TotalsInKeyOrder(records, before);
      assert InKeyOrder(records, keys) == InKeyOrder(records, before) + [last];
      TotalSnoc(CountWeight, InKeyOrder(records, before), last);
      TotalSnoc(FailedWeight, InKeyOrder(records, before), last);
      AllPass(Grouping.Group(KeyOf, records, keys[|keys| - 1]));
    }
  }

  lemma {:induction false} AllPass(records: seq<WorkerRecord>)
    ensures Filter((r: WorkerRecord) => true, records) == records
  {
    if records != [] {
      AllPass(records[1..]);
      assert records == [records[0]] + records[1..];
    }
  }

  /** The jobs' counts add up to the number of records, and their failures to the number of failed records. */
  lemma SummariesCoverRecords(records: seq<WorkerRecord>)
    ensures TotalOf(CountWeight, JobSummaries(records)) == |records|
    ensures TotalOf(FailedWeight, JobSummaries(records)) == |Filter(HasFailed, records)|
  {
    hide Grouping.Group, Grouping.KeyOrder, InKeyOrder, Grouping.CountIn;
    var keys := Grouping.KeyOrder(KeyOf, records);
    TotalOfSorted(CountWeight, InKeyOrder(records, keys));
    TotalOfSorted(FailedWeight, InKeyOrder(records, keys));
    TotalsInKeyOrder(records, keys);
    Grouping.GroupsPartition(KeyOf, (r: WorkerRecord) => true, records);
    Grouping.GroupsPartition(KeyOf, HasFailed, records);
    AllPass(records);
  }

  /** Every job with a record has exactly one summary, every summary covers at least one record, its statistics are
      ordered, and the most urgent comes first. */
  lemma SummariesAreOrdered(records: seq<WorkerRecord>)
    ensures forall s :: s in JobSummaries(records) ==>
              s == SummaryOf(records, s.key) && s.failed <= s.count && s.count > 0 &&
              s.duration.p50 <= s.duration.p95 <= s.duration.max && s.duration.avg <= s.duration.max
    ensures forall r :: r in records ==> SummaryOf(records, KeyOf(r)) in JobSummaries(records)
    ensures Distinct(JobSummaries(records)) && Sorted(MoreUrgent, JobSummaries(records))
    ensures forall i, j :: 0 <= i < j < |JobSummaries(records)| ==>
              JobSummaries(records)[j].failed <= JobSummaries(records)[i].failed
    ensures forall i, j :: 0 <= i < j < |JobSummaries(records)| ==>
              JobSummaries(records)[j].failed == JobSummaries(records)[i].failed ==>
              JobSummaries(records)[j].duration.p95 <= JobSummaries(records)[i].duration.p95
  {
    hide Grouping.Group, Grouping.KeyOrder, Summary, SummaryOf;
    var keys := Grouping.KeyOrder(KeyOf, records);
    var rows := InKeyOrder(records, keys);
    SortMembers(MoreUrgent, rows);
    UrgencyOrder();
    SortSorts(MoreUrgent, rows);
    forall i | 0 <= i < |rows|
      ensures rows[i] == SummaryOf(records, rows[i].key) && rows[i].key == keys[i]
      ensures rows[i].failed <= rows[i].count && rows[i].count > 0 && rows[i].duration.p50 <= rows[i].duration.p95
      ensures rows[i].duration.p95 <= rows[i].duration.max && rows[i].duration.avg <= rows[i].duration.max
    {
      OneSummary(records, keys[i]);
    }
    assert Distinct(rows) by {
      forall i, j | 0 <= i < j < |rows| ensures rows[i] != rows[j] {
        assert rows[i].key == keys[i] && rows[j].key == keys[j];
      }
    }
    DistinctSurvivesSorting(MoreUrgent, rows);
    forall r | r in records ensures SummaryOf(records, KeyOf(r)) in rows {
      assert KeyOf(r) in keys;
      var i :| 0 <= i < |keys| && keys[i] == KeyOf(r);
      assert rows[i] == SummaryOf(records, KeyOf(r));
    }
  }

  /** A summary counts the records of its kind and job, and those of them that failed. */
  lemma SummaryCounts(records: seq<WorkerRecord>, kind: string, job: string)
    ensures var s := SummaryOf(records, JobKey(kind, job));
            s.key == JobKey(kind, job) && s.count == CountOf(records, kind, job, false) &&
            s.failed == CountOf(records, kind, job, true)
  {
    CountsByJob(records, kind, job);
  }

  function CountOf(records: seq<WorkerRecord>, kind: string, job: string, onlyFailed: bool): nat {
    if records == [] then 0
    else
      var r := records[|records| - 1];
      CountOf(records[..|records| - 1], kind, job, onlyFailed) +
      if r.kind == kind && r.job == job && (onlyFailed ==> r.status == Failed) then 1 else 0
  }

  lemma {:induction false} CountsByJob(records: seq<WorkerRecord>, kind: string, job: string)
    ensures |Grouping.Group(KeyOf, records, JobKey(kind, job))| == CountOf(records, kind, job, false)
    ensures |Filter(HasFailed, Grouping.Group(KeyOf, records, JobKey(kind, job)))| == CountOf(records, kind, job, true)
  {
    if records != [] {
      var n := |records| - 1;
      var before := Grouping.Group(KeyOf, records[..n], JobKey(kind, job));
      CountsByJob(records[..n], kind, job);
      Grouping.GroupSnoc(KeyOf, records, n, JobKey(kind, job));
      assert records[..n + 1] == records;
      hide Grouping.Group;
      FailedSnoc(before, records[n]);
      assert before + [] == before;
    }
  }

  lemma FailedSnoc(records: seq<WorkerRecord>, r: WorkerRecord)
    ensures |Filter(HasFailed, records + [r])| == |Filter(HasFailed, records)| + if r.status == Failed then 1 else 0
  {
    FilterConcat(HasFailed, records, [r]);
  }

  lemma OneSummary(records: seq<WorkerRecord>, key: JobKey)
    requires key in Grouping.KeyOrder(KeyOf, records)
    ensures var s := SummaryOf(records, key);
      && s.key == key && s.failed <= s.count && s.count > 0
      && s.duration.p50 <= s.duration.p95 <= s.duration.max && s.duration.avg <= s.duration.max
  {
    hide Grouping.Group, Grouping.KeyOrder, Summary;
    Grouping.GroupNotEmpty(KeyOf, records, key);
    SummaryIsOrdered(Durations(Grouping.Group(KeyOf, records, key)));
  }

  lemma UrgencyOrder()
    ensures Ordering.Total(MoreUrgent) && Transitive(MoreUrgent)
  {
  }
}
