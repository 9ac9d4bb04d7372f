/** What the cache guarantees over whole histories of `compute_models` calls, and where it stops. */
module CacheTheorems {
  import opened Financials
  import opened ModelCache
  import opened ModelEngine
  import opened Ordering
  import Text
  import opened Wrappers

  /** Every stored signature of one company's model is answered by the formula on what it signs, under `hidden`. */
  ghost predicate Sound(f: Formula, hidden: Hidden, runs: seq<ModelRun>, companyId: int, d: Definition) {
    forall r, content: Signed ::
      r in runs && r.companyId == companyId && r.modelName == d.name && r.modelVersion == d.version &&
      r.signature == Some(Sha256(content)) && content.calculationVersion == d.calculationVersion ==>
        r.result == f(d, content, hidden)
  }

  predicate AsksFor(c: Call, companyId: int, d: Definition) {
    c.companyId == companyId && companyId in c.tables.companies &&
    SelectDefinitions(c.names).Ok? && d in SelectDefinitions(c.names).value
  }

  /** If the call asks for this company's model, it sees these hidden inputs; other calls are free. */
  ghost predicate HiddenFixed(c: Call, companyId: int, d: Definition, hidden: Hidden) {
    AsksFor(c, companyId, d) ==> HiddenInput(DatasetOf(c.tables, c.settings, companyId), c.settings, d) == hidden
  }

  /** The job's run id names exactly one stored run, and its result is what recomputing would give. */
  ghost predicate Current(f: Formula, runs: seq<ModelRun>, c: Call, d: Definition, job: JobResult)
    requires c.companyId in c.tables.companies
  {
    job.companyId == c.companyId && job.modelName == d.name && job.modelVersion == d.version &&
    exists r :: r in runs && r.id == job.runId && r.companyId == c.companyId && r.modelName == d.name &&
      r.result == Recomputed(f, DatasetOf(c.tables, c.settings, c.companyId), c.settings, d)
  }

  function RunCalls(f: Formula, s: Store, calls: seq<Call>): Store
    decreases |calls|
  {
    if calls == [] then s else RunCalls(f, Compute(f, s, calls[0]).0, calls[1..])
  }

  /** What the `k`-th call of the history answered. */
  function ReplyAt(f: Formula, s: Store, calls: seq<Call>, k: nat): Reply
    requires k < |calls|
  {
    Compute(f, RunCalls(f, s, calls[..k]), calls[k]).1
  }

  // ----- one call -----

  /** The appended runs have consecutive new ids and are fresh runs of missed definitions. */
  lemma {:induction false} FillAppends(f: Formula, s: Store, c: Call, data: Dataset, defs: seq<Definition>, i: nat)
    requires i < |Fill(f, s, c, data, defs).appended|
    ensures var run := Fill(f, s, c, data, defs).appended[i];
            && run.id == s.nextId + i
            && exists d :: d in defs && !Hit(s.runs, c, data, d) && run == FreshRun(f, c, data, d, run.id)
    decreases |defs|
  {
    hide Hit, Latest, Recomputed, SignedInput, HiddenInput;
    var n := |defs| - 1;
    var before := Fill(f, s, c, data, defs[..n]);
    if i < |before.appended| {
      FillAppends(f, s, c, data, defs[..n], i);
    } else {
      assert defs[n] in defs;
    }
  }

  /** The jobs answer the definitions one by one. */
  lemma {:induction false} FillAnswers(f: Formula, s: Store, c: Call, data: Dataset, defs: seq<Definition>, i: nat)
    requires i < |defs|
    ensures JobOf(f, s, c, data, defs[i], Fill(f, s, c, data, defs).results[i], Fill(f, s, c, data, defs).appended)
    decreases |defs|
  {
    hide Hit, Latest, Recomputed, SignedInput, HiddenInput;
    var n := |defs| - 1;
    var before := Fill(f, s, c, data, defs[..n]);
    if i < n {
      FillAnswers(f, s, c, data, defs[..n], i);
    } else if !Hit(s.runs, c, data, defs[n]) {
      var added := FreshRun(f, c, data, defs[n], s.nextId + |before.appended|);
      assert added in before.appended + [added];
    }
  }

  /** A job reports the latest run on a hit and a fresh one otherwise. */
  ghost predicate JobOf(
      f: Formula, s: Store, c: Call, data: Dataset, d: Definition, job: JobResult, appended: seq<ModelRun>) {
    job.companyId == c.companyId && job.modelName == d.name && job.modelVersion == d.version &&
    job.cached == Hit(s.runs, c, data, d) &&
    if job.cached then job.runId == Latest(s.runs, c.companyId, d).value.id
    else FreshRun(f, c, data, d, job.runId) in appended
  }

  /** Ids stay unique and rows are only appended. */
  lemma ComputeKeepsStore(f: Formula, s: Store, c: Call)
    requires ValidStore(s)
    ensures ValidStore(Compute(f, s, c).0)
    ensures s.runs <= Compute(f, s, c).0.runs
  {
    hide Latest, Recomputed, SignedInput, HiddenInput, DatasetOf, Fill, SelectDefinitions;
    if Compute(f, s, c).0 != s {
      var data := DatasetOf(c.tables, c.settings, c.companyId);
      var defs := SelectDefinitions(c.names).value;
      var appended := Fill(f, s, c, data, defs).appended;
      forall i | 0 <= i < |appended| ensures appended[i].id == s.nextId + i { FillAppends(f, s, c, data, defs, i); }
      var runs := s.runs + appended;
      forall i, j | 0 <= i < j < |runs| ensures runs[i].id != runs[j].id {
        if i < |s.runs| { assert runs[i] in s.runs; }
      }
    }
  }

  /** The store invariant of the cache, for each company's model, is kept by every call. */
  lemma ComputeKeepsSound(f: Formula, hidden: Hidden, s: Store, c: Call, companyId: int, d: Definition)
    requires ValidStore(s) && d in REGISTRY
    requires Sound(f, hidden, s.runs, companyId, d) && HiddenFixed(c, companyId, d, hidden)
    ensures Sound(f, hidden, Compute(f, s, c).0.runs, companyId, d)
  {
    hide Latest, Recomputed, SignedInput, HiddenInput, DatasetOf, Fill, SelectDefinitions, Hit;
    if Compute(f, s, c).0 != s {
      var data := DatasetOf(c.tables, c.settings, c.companyId);
      var defs := SelectDefinitions(c.names).value;
      var appended := Fill(f, s, c, data, defs).appended;
      forall r, content: Signed |
        r in appended && r.companyId == companyId && r.modelName == d.name && r.modelVersion == d.version &&
        r.signature == Some(Sha256(content)) && content.calculationVersion == d.calculationVersion
        ensures r.result == f(d, content, hidden)
      {
        var d0 := AppendedFromDefinition(f, s, c, data, defs, r);
        FreshRunIsSound(f, hidden, c, data, d0, r.id, d, content);
      }
    }
  }

  lemma FreshRunIsSound(
      f: Formula, hidden: Hidden, c: Call, data: Dataset, d0: Definition, id: int, d: Definition, content: Signed)
    requires d0 in REGISTRY && d in REGISTRY
    requires FreshRun(f, c, data, d0, id).modelName == d.name
    requires FreshRun(f, c, data, d0, id).signature == Some(Sha256(content))
    requires d0 == d ==> HiddenInput(data, c.settings, d) == hidden
    ensures d0 == d && FreshRun(f, c, data, d0, id).result == f(d, content, hidden)
  {
    hide SignedInput, HiddenInput;
    RegistryNamesAreUnique(d, d0);
  }

  /** A hit on a sound store is what recomputing would give. */
  lemma HitIsCurrent(f: Formula, hidden: Hidden, s: Store, c: Call, d: Definition)
    requires ValidStore(s) && d in REGISTRY && AsksFor(c, c.companyId, d)
    requires Sound(f, hidden, s.runs, c.companyId, d) && HiddenFixed(c, c.companyId, d, hidden)
    requires Hit(s.runs, c, DatasetOf(c.tables, c.settings, c.companyId), d)
    ensures var r := Latest(s.runs, c.companyId, d).value;
            r in s.runs && r.companyId == c.companyId && r.modelName == d.name && r.modelVersion == d.version &&
            r.result == Recomputed(f, DatasetOf(c.tables, c.settings, c.companyId), c.settings, d)
  {
    hide Latest, DatasetOf, SelectDefinitions;
    LatestIsNewest(s.runs, c.companyId, d, Latest(s.runs, c.companyId, d).value);
  }

  lemma JobIsCurrent(
      f: Formula, hidden: Hidden, s: Store, c: Call, d: Definition, job: JobResult, appended: seq<ModelRun>)
    requires ValidStore(s) && d in REGISTRY && AsksFor(c, c.companyId, d)
    requires Sound(f, hidden, s.runs, c.companyId, d) && HiddenFixed(c, c.companyId, d, hidden)
    requires JobOf(f, s, c, DatasetOf(c.tables, c.settings, c.companyId), d, job, appended)
    ensures Current(f, s.runs + appended, c, d, job)
  {
    hide Latest, SignedInput, HiddenInput, DatasetOf, Sound, HiddenFixed, ValidStore;
    if job.cached {
      HitIsCurrent(f, hidden, s, c, d);
      assert Latest(s.runs, c.companyId, d).value in s.runs + appended;
    } else {
      assert FreshRun(f, c, DatasetOf(c.tables, c.settings, c.companyId), d, job.runId) in s.runs + appended;
    }
  }

  /** What a successful call with answers is made of: one job per definition, for the runs before it. */
  lemma AnsweredJob(f: Formula, s: Store, c: Call, i: nat)
    requires Compute(f, s, c).1.Ok? && i < |Compute(f, s, c).1.value|
    ensures c.companyId in c.tables.companies && SelectDefinitions(c.names).Ok?
    ensures |Compute(f, s, c).1.value| == |SelectDefinitions(c.names).value|
    ensures var defs := SelectDefinitions(c.names).value;
            var data := DatasetOf(c.tables, c.settings, c.companyId);
            var appended := Fill(f, s, c, data, defs).appended;
            && AsksFor(c, c.companyId, defs[i]) && data.financials != []
            && JobOf(f, s, c, data, defs[i], Compute(f, s, c).1.value[i], appended)
            && Compute(f, s, c).0.runs == s.runs + appended && Compute(f, s, c).0.nextId == s.nextId + |appended|
  {
    hide Latest, SignedInput, HiddenInput, DatasetOf, Fill, SelectDefinitions, Hit, JobOf;
    FillAnswers(f, s, c, DatasetOf(c.tables, c.settings, c.companyId), SelectDefinitions(c.names).value, i);
  }

  // ----- histories -----

  lemma {:induction false} HistoryKeepsStore(f: Formula, s: Store, calls: seq<Call>)
    requires ValidStore(s)
    ensures ValidStore(RunCalls(f, s, calls)) && s.runs <= RunCalls(f, s, calls).runs
    decreases |calls|
  {
    hide ValidStore, Compute;
    if calls != [] {
      ComputeKeepsStore(f, s, calls[0]);
      HistoryKeepsStore(f, Compute(f, s, calls[0]).0, calls[1..]);
    }
  }

  /** Soundness of one company's model is kept by every history in which its hidden inputs stay the same. */
  lemma {:induction false} HistoryKeepsSound(
    f: Formula, hidden: Hidden, s: Store, calls: seq<Call>, companyId: int, d: Definition)
    requires ValidStore(s) && d in REGISTRY && Sound(f, hidden, s.runs, companyId, d)
    requires forall c :: c in calls ==> HiddenFixed(c, companyId, d, hidden)
    ensures Sound(f, hidden, RunCalls(f, s, calls).runs, companyId, d)
    decreases |calls|
  {
    hide Sound, ValidStore, HiddenFixed, Compute;
    if calls != [] {
      ComputeKeepsStore(f, s, calls[0]);
      ComputeKeepsSound(f, hidden, s, calls[0], companyId, d);
      HistoryKeepsSound(f, hidden, Compute(f, s, calls[0]).0, calls[1..], companyId, d);
    }
  }

  lemma {:induction false} RunCallsSplits(f: Formula, s: Store, calls: seq<Call>, k: nat)
    requires k <= |calls|
    ensures RunCalls(f, s, calls) == RunCalls(f, RunCalls(f, s, calls[..k]), calls[k..])
    decreases |calls|
  {
    hide Compute;
    if k == 0 {
      assert calls[..0] == [] && calls[0..] == calls;
    } else {
      assert calls[..k][1..] == calls[1..][..k - 1] && calls[k..] == calls[1..][k - 1..];
      RunCallsSplits(f, Compute(f, s, calls[0]).0, calls[1..], k - 1);
    }
  }

  /** The store just before, just after and at the end of the history, seen from its `k`-th call. */
  lemma AroundCall(f: Formula, s: Store, calls: seq<Call>, k: nat)
    requires ValidStore(s) && k < |calls|
    ensures ValidStore(RunCalls(f, s, calls[..k])) && ValidStore(RunCalls(f, s, calls))
    ensures RunCalls(f, s, calls[..k + 1]) == Compute(f, RunCalls(f, s, calls[..k]), calls[k]).0
    ensures RunCalls(f, s, calls[..k + 1]).runs <= RunCalls(f, s, calls).runs
  {
    hide ValidStore, Compute;
    HistoryKeepsStore(f, s, calls[..k]);
    HistoryKeepsStore(f, s, calls[..k + 1]);
    HistoryKeepsStore(f, RunCalls(f, s, calls[..k + 1]), calls[k + 1..]);
    HistoryKeepsStore(f, s, calls);
    RunCallsSplits(f, s, calls, k + 1);
    RunCallsSplits(f, s, calls[..k + 1], k);
    assert calls[..k + 1][..k] == calls[..k] && calls[..k + 1][k..] == [calls[k]];
    OneCall(f, RunCalls(f, s, calls[..k]), calls[k]);
  }

  lemma OneCall(f: Formula, s: Store, c: Call)
    ensures RunCalls(f, s, [c]) == Compute(f, s, c).0
  {
    hide Compute;
    assert [c][1..] == [];
  }

  /**
   Cache soundness over every history. Whatever statements, prices, settings, model lists and force flags the calls
   use, if the hidden inputs of a company's model are the same whenever it is asked for, then every run id returned
   for it names, in the final store, exactly one run, whose result is the formula on the dataset its caller had.
   */
  lemma EveryAnswerIsCurrent(
    f: Formula, hidden: Hidden, s: Store, calls: seq<Call>, k: nat, defs: seq<Definition>, i: nat)
    requires ValidStore(s) && k < |calls| && SelectDefinitions(calls[k].names) == Ok(defs)
    requires ReplyAt(f, s, calls, k).Ok? && i < |ReplyAt(f, s, calls, k).value| && i < |defs|
    requires Sound(f, hidden, s.runs, calls[k].companyId, defs[i])
    requires forall c :: c in calls ==> HiddenFixed(c, calls[k].companyId, defs[i], hidden)
    ensures calls[k].companyId in calls[k].tables.companies && |ReplyAt(f, s, calls, k).value| == |defs|
    ensures Current(f, RunCalls(f, s, calls).runs, calls[k], defs[i], ReplyAt(f, s, calls, k).value[i])
    ensures UniqueIds(RunCalls(f, s, calls).runs)
  {
    hide Sound, HiddenFixed, Compute, SelectDefinitions, Recomputed, DatasetOf, JobOf, RunCalls, Fill;
    var at := RunCalls(f, s, calls[..k]);
    AroundCall(f, s, calls, k);
    HistoryKeepsSound(f, hidden, s, calls[..k], calls[k].companyId, defs[i]);
    AnsweredJob(f, at, calls[k], i);
    var data := DatasetOf(calls[k].tables, calls[k].settings, calls[k].companyId);
    var filled := Fill(f, at, calls[k], data, defs);
    JobIsCurrent(f, hidden, at, calls[k], defs[i], ReplyAt(f, s, calls, k).value[i], filled.appended);
  }

  /** Nothing stored is nothing wrong. */
  lemma EmptyStoreIsSound(f: Formula, hidden: Hidden, companyId: int, d: Definition, nextId: int)
    ensures ValidStore(Store([], nextId)) && Sound(f, hidden, [], companyId, d)
  {
  }

  /** The company is classified the same whenever it is computed. */
  ghost predicate ClassificationFixed(calls: seq<Call>, companyId: int, classification: Classification) {
    forall c :: c in calls && c.companyId == companyId && companyId in c.tables.companies ==>
      c.tables.companies[companyId] == classification
  }

  /** The risk-free rate is the same whenever this company's model is asked for. */
  ghost predicate RateFixed(calls: seq<Call>, companyId: int, d: Definition, rate: RiskFreeRate) {
    forall c :: c in calls && AsksFor(c, companyId, d) ==> c.settings.riskFree == rate
  }

  /** For every model but residual income a fixed classification suffices, however the rate and the rest change. */
  lemma FixedClassificationSuffices(
    f: Formula, classification: Classification, s: Store, calls: seq<Call>, k: nat, defs: seq<Definition>, i: nat)
    requires ValidStore(s) && k < |calls| && SelectDefinitions(calls[k].names) == Ok(defs)
    requires ReplyAt(f, s, calls, k).Ok? && i < |ReplyAt(f, s, calls, k).value| && i < |defs|
    requires defs[i].name != "residual_income"
    requires Sound(f, Hidden(classification, None), s.runs, calls[k].companyId, defs[i])
    requires ClassificationFixed(calls, calls[k].companyId, classification)
    ensures calls[k].companyId in calls[k].tables.companies && |ReplyAt(f, s, calls, k).value| == |defs|
    ensures Current(f, RunCalls(f, s, calls).runs, calls[k], defs[i], ReplyAt(f, s, calls, k).value[i])
    ensures UniqueIds(RunCalls(f, s, calls).runs)
  {
    hide Sound, Compute, SelectDefinitions, Recomputed, RunCalls, ReplyAt, Current;
    EveryAnswerIsCurrent(f, Hidden(classification, None), s, calls, k, defs, i);
  }

  /** Residual income needs the rate fixed as well, in the calls that ask for it. */
  lemma ResidualIncomeNeedsTheRateToo(
    f: Formula, classification: Classification, rate: RiskFreeRate, s: Store, calls: seq<Call>, k: nat,
    defs: seq<Definition>, i: nat)
    requires ValidStore(s) && k < |calls| && SelectDefinitions(calls[k].names) == Ok(defs)
    requires ReplyAt(f, s, calls, k).Ok? && i < |ReplyAt(f, s, calls, k).value| && i < |defs|
    requires defs[i].name == "residual_income"
    requires Sound(f, Hidden(classification, Some(rate)), s.runs, calls[k].companyId, defs[i])
    requires ClassificationFixed(calls, calls[k].companyId, classification)
    requires RateFixed(calls, calls[k].companyId, defs[i], rate)
    ensures calls[k].companyId in calls[k].tables.companies && |ReplyAt(f, s, calls, k).value| == |defs|
    ensures Current(f, RunCalls(f, s, calls).runs, calls[k], defs[i], ReplyAt(f, s, calls, k).value[i])
    ensures UniqueIds(RunCalls(f, s, calls).runs)
  {
    hide Sound, Compute, SelectDefinitions, Recomputed, RunCalls, ReplyAt, Current;
    EveryAnswerIsCurrent(f, Hidden(classification, Some(rate)), s, calls, k, defs, i);
  }

  /** From an empty table nothing need be assumed of what is stored: a fixed classification, and for residual income a
      fixed rate, make every answer current. */
  lemma CurrentFromAnEmptyTable(
    f: Formula, classification: Classification, nextId: int, calls: seq<Call>, k: nat, defs: seq<Definition>, i: nat)
    requires k < |calls| && SelectDefinitions(calls[k].names) == Ok(defs)
    requires ReplyAt(f, Store([], nextId), calls, k).Ok? && i < |ReplyAt(f, Store([], nextId), calls, k).value|
    requires i < |defs| && ClassificationFixed(calls, calls[k].companyId, classification)
    requires defs[i].name == "residual_income" ==>
      RateFixed(calls, calls[k].companyId, defs[i], calls[k].settings.riskFree)
    ensures calls[k].companyId in calls[k].tables.companies
    ensures Current(f, RunCalls(f, Store([], nextId), calls).runs, calls[k], defs[i],
                    ReplyAt(f, Store([], nextId), calls, k).value[i])
  {
    hide Sound, Compute, SelectDefinitions, Recomputed, RunCalls, ReplyAt, Current, ClassificationFixed, RateFixed;
    var rate := calls[k].settings.riskFree;
    if defs[i].name == "residual_income" {
      EmptyStoreIsSound(f, Hidden(classification, Some(rate)), calls[k].companyId, defs[i], nextId);
      ResidualIncomeNeedsTheRateToo(f, classification, rate, Store([], nextId), calls, k, defs, i);
    } else {
      EmptyStoreIsSound(f, Hidden(classification, None), calls[k].companyId, defs[i], nextId);
      FixedClassificationSuffices(f, classification, Store([], nextId), calls, k, defs, i);
    }
  }

  // ----- calling twice -----

  lemma NotBlank(version: string)
    requires version != "" && Text.Trimmed(version)
    ensures NonBlank(Some(version)) == Some(version)
  {
    Text.StripTrims(version);
  }

  /** The two tables of calculation versions agree, and registered versions are not blank. */
  lemma RegistryVersionsAgree(d: Definition)
    requires d in REGISTRY
    ensures CalculationVersionOf(d.name) == d.calculationVersion
    ensures NonBlank(d.calculationVersion) == d.calculationVersion
  {
    hide NonBlank, Text.Lower, Text.Strip;
    assert d.calculationVersion.Some? ==> Text.Trimmed(d.calculationVersion.value) && d.calculationVersion.value != "";
    assert forall i :: 0 <= i < |d.name| ==> !('A' <= d.name[i] <= 'Z');
    Text.LowerKeepsLower(d.name);
    if d.calculationVersion.Some? { NotBlank(d.calculationVersion.value); } else { BlankStaysBlank(); }
  }

  lemma BlankStaysBlank()
    ensures NonBlank(None) == None
  {
  }

  lemma FreshRunIsCandidate(f: Formula, c: Call, data: Dataset, d: Definition, id: int)
    requires d in REGISTRY
    ensures Candidate(FreshRun(f, c, data, d, id), c.companyId, d)
  {
    hide Recomputed, SignedInput;
    RegistryVersionsAgree(d);
  }

  /** No stored run of the company is later than the clock. */
  ghost predicate ClockAhead(s: Store, c: Call) {
    forall r :: r in s.runs && r.companyId == c.companyId ==> r.createdAt <= c.now
  }

  /** A call appends a candidate for every definition it misses. */
  lemma MissAppendsCandidate(f: Formula, s: Store, c: Call, data: Dataset, defs: seq<Definition>, d: Definition)
    returns (added: ModelRun)
    requires (forall e :: e in defs ==> e in REGISTRY) && d in defs && !Hit(s.runs, c, data, d)
    ensures added in Fill(f, s, c, data, defs).appended && Candidate(added, c.companyId, d)
    ensures added == FreshRun(f, c, data, d, added.id)
  {
    hide Latest, SignedInput, HiddenInput, Recomputed, Hit, Fill, Candidate;
    var i :| 0 <= i < |defs| && defs[i] == d;
    FillAnswers(f, s, c, data, defs, i);
    var id := Fill(f, s, c, data, defs).results[i].runId;
    added := FreshRun(f, c, data, d, id);
    FreshRunIsCandidate(f, c, data, d, id);
  }

  lemma AppendedFromDefinition(f: Formula, s: Store, c: Call, data: Dataset, defs: seq<Definition>, run: ModelRun)
    returns (e: Definition)
    requires run in Fill(f, s, c, data, defs).appended
    ensures e in defs && !Hit(s.runs, c, data, e) && run == FreshRun(f, c, data, e, run.id) && run.id >= s.nextId
  {
    hide Latest, SignedInput, HiddenInput, Recomputed, Hit, Fill, FreshRun;
    var k :| 0 <= k < |Fill(f, s, c, data, defs).appended| && Fill(f, s, c, data, defs).appended[k] == run;
    FillAppends(f, s, c, data, defs, k);
    e :| e in defs && !Hit(s.runs, c, data, e) && run == FreshRun(f, c, data, e, run.id);
  }

  /** After a call, the latest run of a definition it missed is one the call appended for it. */
  lemma LatestAfterMiss(f: Formula, s: Store, c: Call, data: Dataset, defs: seq<Definition>, d: Definition)
    requires ValidStore(s) && ClockAhead(s, c) && (forall e :: e in defs ==> e in REGISTRY) && d in defs
    requires !Hit(s.runs, c, data, d)
    requires UniqueIds(s.runs + Fill(f, s, c, data, defs).appended)
    ensures var appended := Fill(f, s, c, data, defs).appended;
            var latest := Latest(s.runs + appended, c.companyId, d);
            latest.Some? && latest.value in appended && latest.value == FreshRun(f, c, data, d, latest.value.id)
  {
    hide Latest, SignedInput, HiddenInput, Recomputed, Hit, Fill, RunCalculationVersion;
    var appended := Fill(f, s, c, data, defs).appended;
    var runs := s.runs + appended;
    var added := MissAppendsCandidate(f, s, c, data, defs, d);
    assert added in runs;
    LatestIsNewest(runs, c.companyId, d, added);
    var latest := Latest(runs, c.companyId, d).value;
    LatestIsNewest(runs, c.companyId, d, latest);
    assert Newer(latest, added);
    var e0 := AppendedFromDefinition(f, s, c, data, defs, added);
    assert latest !in s.runs;
    var e := AppendedFromDefinition(f, s, c, data, defs, latest);
    RegistryNamesAreUnique(d, e);
  }

  /** After a call, a definition it answered from the cache still has the same latest run. */
  lemma LatestAfterHit(f: Formula, s: Store, c: Call, data: Dataset, defs: seq<Definition>, d: Definition)
    requires ValidStore(s) && (forall e :: e in defs ==> e in REGISTRY) && d in REGISTRY
    requires Hit(s.runs, c, data, d)
    requires UniqueIds(s.runs + Fill(f, s, c, data, defs).appended)
    ensures Latest(s.runs + Fill(f, s, c, data, defs).appended, c.companyId, d) == Latest(s.runs, c.companyId, d)
  {
    hide Latest, SignedInput, HiddenInput, Recomputed, Fill;
    var appended := Fill(f, s, c, data, defs).appended;
    var latest := Latest(s.runs, c.companyId, d).value;
    LatestIsNewest(s.runs, c.companyId, d, latest);
    forall x | x in appended ensures !Candidate(x, c.companyId, d) {
      var e := AppendedFromDefinition(f, s, c, data, defs, x);
      if e.name == d.name { RegistryNamesAreUnique(d, e); }
    }
    LatestIsNewest(s.runs + appended, c.companyId, d, latest);
  }

  /** With distinct definitions a call appends at most one run per definition. */
  lemma {:induction false} AppendsOnce(f: Formula, s: Store, c: Call, data: Dataset, defs: seq<Definition>)
    requires (forall e :: e in defs ==> e in REGISTRY) && Distinct(defs)
    ensures forall i, j :: 0 <= i < j < |Fill(f, s, c, data, defs).appended| ==>
              Fill(f, s, c, data, defs).appended[i].modelName != Fill(f, s, c, data, defs).appended[j].modelName
    decreases |defs|
  {
    hide Hit, Latest, SignedInput, HiddenInput, Recomputed;
    if defs != [] {
      var n := |defs| - 1;
      AppendsOnce(f, s, c, data, defs[..n]);
      var before := Fill(f, s, c, data, defs[..n]).appended;
      forall i | 0 <= i < |before| ensures before[i].modelName != defs[n].name {
        FillAppends(f, s, c, data, defs[..n], i);
        var e :| e in defs[..n] && !Hit(s.runs, c, data, e) && before[i] == FreshRun(f, c, data, e, before[i].id);
        if e.name == defs[n].name { RegistryNamesAreUnique(e, defs[n]); }
      }
    }
  }

  /** The same request again, unforced, at any later moment. */
  ghost predicate Repeats(c2: Call, c: Call) {
    c2 == c.(force := false, now := c2.now)
  }

  lemma RepeatHits(f: Formula, s: Store, c: Call, c2: Call, data: Dataset, defs: seq<Definition>, d: Definition)
    requires ValidStore(s) && ClockAhead(s, c) && (forall e :: e in defs ==> e in REGISTRY) && d in defs
    requires Repeats(c2, c) && UniqueIds(s.runs + Fill(f, s, c, data, defs).appended)
    ensures Hit(s.runs + Fill(f, s, c, data, defs).appended, c2, data, d)
  {
    hide Latest, HiddenInput, Recomputed, Fill;
    if Hit(s.runs, c, data, d) {
      LatestAfterHit(f, s, c, data, defs, d);
    } else {
      LatestAfterMiss(f, s, c, data, defs, d);
    }
  }

  lemma {:induction false} AllHitsAppendNothing(f: Formula, s: Store, c: Call, data: Dataset, defs: seq<Definition>)
    requires forall d :: d in defs ==> Hit(s.runs, c, data, d)
    ensures Fill(f, s, c, data, defs).appended == []
    decreases |defs|
  {
    hide Hit, Latest;
    if defs != [] { AllHitsAppendNothing(f, s, c, data, defs[..|defs| - 1]); }
  }

  /** An unforced repetition of a call appends nothing and answers every model from the cache. */
  lemma RepeatAppendsNothing(f: Formula, s: Store, c: Call, c2: Call)
    requires ValidStore(s) && ClockAhead(s, c) && Repeats(c2, c) && Compute(f, s, c).1.Ok?
    ensures var after := Compute(f, s, c).0;
            Compute(f, after, c2).0 == after && Compute(f, after, c2).1.Ok? &&
            |Compute(f, after, c2).1.value| == |Compute(f, s, c).1.value| &&
            forall job :: job in Compute(f, after, c2).1.value ==> job.cached
  {
    hide Latest, SignedInput, HiddenInput, Recomputed, DatasetOf, SelectDefinitions, Hit, Fill;
    ComputeKeepsStore(f, s, c);
    var after := Compute(f, s, c).0;
    var data := DatasetOf(c.tables, c.settings, c.companyId);
    if data.financials != [] {
      var defs := SelectDefinitions(c.names).value;
      assert after.runs == s.runs + Fill(f, s, c, data, defs).appended;
      forall d | d in defs ensures Hit(after.runs, c2, data, d) { RepeatHits(f, s, c, c2, data, defs, d); }
      AllHitsAppendNothing(f, after, c2, data, defs);
      var again := Fill(f, after, c2, data, defs);
      forall i | 0 <= i < |defs| ensures again.results[i].cached { FillAnswers(f, after, c2, data, defs, i); }
      assert after.runs + [] == after.runs;
    }
  }

  lemma SameJobOnRepeat(f: Formula, s: Store, c: Call, c2: Call, data: Dataset, defs: seq<Definition>, i: nat)
    requires ValidStore(s) && ClockAhead(s, c) && (forall e :: e in defs ==> e in REGISTRY) && Distinct(defs)
    requires Repeats(c2, c) && i < |defs| && UniqueIds(s.runs + Fill(f, s, c, data, defs).appended)
    ensures var after :=
            Store(s.runs + Fill(f, s, c, data, defs).appended, s.nextId + |Fill(f, s, c, data, defs).appended|);
            Fill(f, after, c2, data, defs).results[i].runId == Fill(f, s, c, data, defs).results[i].runId
  {
    hide Latest, SignedInput, HiddenInput, Recomputed, Fill;
    var filled := Fill(f, s, c, data, defs);
    var after := Store(s.runs + filled.appended, s.nextId + |filled.appended|);
    var d := defs[i];
    assert d in defs;
    RepeatHits(f, s, c, c2, data, defs, d);
    FillAnswers(f, s, c, data, defs, i);
    FillAnswers(f, after, c2, data, defs, i);
    if Hit(s.runs, c, data, d) {
      LatestAfterHit(f, s, c, data, defs, d);
    } else {
      LatestAfterMiss(f, s, c, data, defs, d);
      AppendsOnce(f, s, c, data, defs);
      var added := FreshRun(f, c, data, d, filled.results[i].runId);
      var latest := Latest(after.runs, c.companyId, d).value;
      var j :| 0 <= j < |filled.appended| && filled.appended[j] == added;
      var k :| 0 <= k < |filled.appended| && filled.appended[k] == latest;
      assert added.modelName == latest.modelName;
    }
  }

  /** With distinct models the repetition also returns the same run ids. */
  lemma RepeatReturnsSameIds(f: Formula, s: Store, c: Call, c2: Call, defs: seq<Definition>)
    requires ValidStore(s) && ClockAhead(s, c) && Repeats(c2, c) && Compute(f, s, c).1.Ok?
    requires SelectDefinitions(c.names) == Ok(defs) && Distinct(defs)
    ensures Compute(f, Compute(f, s, c).0, c2).1.Ok?
    ensures forall i :: 0 <= i < |Compute(f, s, c).1.value| && i < |Compute(f, Compute(f, s, c).0, c2).1.value| ==>
              Compute(f, Compute(f, s, c).0, c2).1.value[i].runId == Compute(f, s, c).1.value[i].runId
  {
    hide Latest, SignedInput, HiddenInput, Recomputed, DatasetOf, SelectDefinitions, Hit, Fill;
    ComputeKeepsStore(f, s, c);
    RepeatAppendsNothing(f, s, c, c2);
    var data := DatasetOf(c.tables, c.settings, c.companyId);
    if data.financials != [] {
      var filled := Fill(f, s, c, data, defs);
      assert Compute(f, s, c).0 == Store(s.runs + filled.appended, s.nextId + |filled.appended|);
      forall i | 0 <= i < |defs|
        ensures Fill(f, Compute(f, s, c).0, c2, data, defs).results[i].runId == filled.results[i].runId
      {
        SameJobOnRepeat(f, s, c, c2, data, defs, i);
      }
    }
  }
}
