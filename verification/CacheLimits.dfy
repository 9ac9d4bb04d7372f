/**
 Where cache soundness stops: an answer from the cache is right exactly when the inputs the signature leaves out are
 those the stored run was computed under.
 */
module CacheLimits {
  import opened CacheTheorems
  import opened Financials
  import opened ModelCache
  import opened ModelEngine
  import opened Ordering
  import opened Wrappers

  // ----- answers do not depend on the formula -----

  /** The runs differ in their results only, and may answer for the same models. */
  ghost predicate Alike(a: ModelRun, b: ModelRun) {
    a == b.(result := a.result) &&
    forall companyId, d :: d in REGISTRY ==> (Candidate(a, companyId, d) <==> Candidate(b, companyId, d))
  }

  ghost predicate AlikeRuns(x: seq<ModelRun>, y: seq<ModelRun>) {
    |x| == |y| && forall i :: 0 <= i < |x| ==> Alike(x[i], y[i])
  }

  ghost predicate AlikeStores(s: Store, t: Store) {
    ValidStore(s) && ValidStore(t) && AlikeRuns(s.runs, t.runs) && s.nextId == t.nextId
  }

  lemma AlikeIsSymmetric(x: seq<ModelRun>, y: seq<ModelRun>)
    requires AlikeRuns(x, y)
    ensures AlikeRuns(y, x)
  {
    hide Candidate;
  }

  lemma LatestAlike(x: seq<ModelRun>, y: seq<ModelRun>, companyId: int, d: Definition, i: nat)
    requires UniqueIds(x) && UniqueIds(y) && AlikeRuns(x, y) && d in REGISTRY && i < |x|
    requires Latest(x, companyId, d) == Some(x[i])
    ensures Latest(y, companyId, d) == Some(y[i])
  {
    hide Latest, Candidate;
    LatestIsNewest(x, companyId, d, x[i]);
    forall b | b in y && Candidate(b, companyId, d) ensures Newer(y[i], b) {
      var j :| 0 <= j < |y| && y[j] == b;
      assert Alike(x[j], y[j]) && x[j] in x;
    }
    assert Alike(x[i], y[i]);
    LatestIsNewest(y, companyId, d, y[i]);
  }

  lemma HitAlike(s: Store, t: Store, c: Call, data: Dataset, d: Definition)
    requires AlikeStores(s, t) && d in REGISTRY
    ensures Hit(s.runs, c, data, d) ==> Hit(t.runs, c, data, d)
    ensures Hit(s.runs, c, data, d) ==>
            Latest(t.runs, c.companyId, d).value.id == Latest(s.runs, c.companyId, d).value.id
  {
    hide Latest, Candidate, SignedInput;
    if Latest(s.runs, c.companyId, d).Some? {
      var r := Latest(s.runs, c.companyId, d).value;
      LatestIsNewest(s.runs, c.companyId, d, r);
      var i :| 0 <= i < |s.runs| && s.runs[i] == r;
      LatestAlike(s.runs, t.runs, c.companyId, d, i);
      assert Alike(s.runs[i], t.runs[i]);
    }
  }

  lemma FreshRunsAlike(f: Formula, g: Formula, c: Call, data: Dataset, d: Definition, id: int)
    requires d in REGISTRY
    ensures Alike(FreshRun(f, c, data, d, id), FreshRun(g, c, data, d, id))
  {
    hide SignedInput, Recomputed, RunCalculationVersion;
    FreshRunIsCandidate(f, c, data, d, id);
    FreshRunIsCandidate(g, c, data, d, id);
    forall companyId, e | e in REGISTRY
      ensures Candidate(FreshRun(f, c, data, d, id), companyId, e) <==>
              Candidate(FreshRun(g, c, data, d, id), companyId, e)
    {
      if e.name == d.name { RegistryNamesAreUnique(d, e); }
    }
  }

  lemma {:induction false} FillAlike(
    f: Formula, g: Formula, s: Store, t: Store, c: Call, data: Dataset, defs: seq<Definition>)
    requires AlikeStores(s, t) && forall d :: d in defs ==> d in REGISTRY
    ensures Fill(f, s, c, data, defs).results == Fill(g, t, c, data, defs).results
    ensures AlikeRuns(Fill(f, s, c, data, defs).appended, Fill(g, t, c, data, defs).appended)
    decreases |defs|
  {
    hide Hit, Latest, FreshRun, Alike, ValidStore;
    if defs != [] {
      var n := |defs| - 1;
      FillAlike(f, g, s, t, c, data, defs[..n]);
      var d := defs[n];
      AlikeIsSymmetric(s.runs, t.runs);
      HitAlike(s, t, c, data, d);
      HitAlike(t, s, c, data, d);
      FreshRunsAlike(f, g, c, data, d, s.nextId + |Fill(f, s, c, data, defs[..n]).appended|);
    }
  }

  lemma ComputeAlike(f: Formula, g: Formula, s: Store, t: Store, c: Call)
    requires AlikeStores(s, t)
    ensures Compute(f, s, c).1 == Compute(g, t, c).1
    ensures AlikeStores(Compute(f, s, c).0, Compute(g, t, c).0)
  {
    hide DatasetOf, SelectDefinitions, Fill, Alike, ValidStore;
    ComputeKeepsStore(f, s, c);
    ComputeKeepsStore(g, t, c);
    if c.companyId in c.tables.companies && SelectDefinitions(c.names).Ok? {
      FillAlike(f, g, s, t, c, DatasetOf(c.tables, c.settings, c.companyId), SelectDefinitions(c.names).value);
    }
  }

  lemma {:induction false} RunCallsAlike(f: Formula, g: Formula, s: Store, t: Store, calls: seq<Call>)
    requires AlikeStores(s, t)
    ensures AlikeStores(RunCalls(f, s, calls), RunCalls(g, t, calls))
    decreases |calls|
  {
    hide Compute, AlikeStores;
    if calls != [] {
      ComputeAlike(f, g, s, t, calls[0]);
      RunCallsAlike(f, g, Compute(f, s, calls[0]).0, Compute(g, t, calls[0]).0, calls[1..]);
    }
  }

  /** Which runs are reused, computed and returned along a history does not depend on the formula. */
  lemma AnswersForgetFormula(f: Formula, g: Formula, s: Store, calls: seq<Call>, k: nat)
    requires ValidStore(s) && k < |calls|
    ensures ReplyAt(f, s, calls, k) == ReplyAt(g, s, calls, k)
  {
    hide Compute, RunCalls, Candidate;
    assert AlikeStores(s, s);
    hide AlikeStores;
    RunCallsAlike(f, g, s, s, calls[..k]);
    ComputeAlike(f, g, RunCalls(f, s, calls[..k]), RunCalls(g, s, calls[..k]), calls[k]);
  }

  // ----- the exact condition -----

  /** The `k`-th call's `j`-th answer is for `d`. */
  ghost predicate Answers(g: Formula, s: Store, calls: seq<Call>, k: nat, j: nat, d: Definition)
    requires k < |calls|
  {
    ReplyAt(g, s, calls, k).Ok? && j < |ReplyAt(g, s, calls, k).value| &&
    SelectDefinitions(calls[k].names).Ok? && j < |SelectDefinitions(calls[k].names).value| &&
    SelectDefinitions(calls[k].names).value[j] == d
  }

  /** Call `k` computed a run for `d`, and the later call `l` answered from the cache with that very run. */
  ghost predicate AnsweredFrom(g: Formula, s: Store, calls: seq<Call>, k: nat, j: nat, l: nat, i: nat, d: Definition) {
    ValidStore(s) && k < l < |calls| && Answers(g, s, calls, k, j, d) && Answers(g, s, calls, l, i, d) &&
    !ReplyAt(g, s, calls, k).value[j].cached && ReplyAt(g, s, calls, l).value[i].cached &&
    ReplyAt(g, s, calls, l).value[i].runId == ReplyAt(g, s, calls, k).value[j].runId
  }

  /** The hidden inputs of `d` in a call that names a known company. */
  ghost function HiddenAt(c: Call, d: Definition): Option<Hidden> {
    if c.companyId in c.tables.companies
    then Some(HiddenInput(DatasetOf(c.tables, c.settings, c.companyId), c.settings, d)) else None
  }

  /** The `i`-th answer of call `l` names a run that, at the end of the history, is what recomputing would give. */
  ghost predicate AnswerIsCurrent(f: Formula, s: Store, calls: seq<Call>, l: nat, i: nat, d: Definition)
    requires l < |calls|
  {
    calls[l].companyId in calls[l].tables.companies &&
    ReplyAt(f, s, calls, l).Ok? && i < |ReplyAt(f, s, calls, l).value| &&
    Current(f, RunCalls(f, s, calls).runs, calls[l], d, ReplyAt(f, s, calls, l).value[i])
  }

  lemma SameIdSameRun(runs: seq<ModelRun>, a: ModelRun, b: ModelRun)
    requires UniqueIds(runs) && a in runs && b in runs && a.id == b.id
    ensures a == b
  {
    var i :| 0 <= i < |runs| && runs[i] == a;
    var j :| 0 <= j < |runs| && runs[j] == b;
  }

  /** A cached answer is some stored run of its company and model with its signature. */
  lemma CachedJob(f: Formula, s: Store, calls: seq<Call>, l: nat, i: nat, d: Definition) returns (run: ModelRun)
    requires ValidStore(s) && l < |calls| && Answers(f, s, calls, l, i, d) && ReplyAt(f, s, calls, l).value[i].cached
    ensures calls[l].companyId in calls[l].tables.companies
    ensures run in RunCalls(f, s, calls[..l]).runs && run.id == ReplyAt(f, s, calls, l).value[i].runId
    ensures run.companyId == calls[l].companyId && run.modelName == d.name
    ensures run.signature ==
            Some(Sha256(SignedInput(DatasetOf(calls[l].tables, calls[l].settings, calls[l].companyId),
              calls[l].settings, d)))
  {
    hide Compute, RunCalls, Fill, Latest, SelectDefinitions, DatasetOf, SignedInput, RunCalculationVersion;
    var at := RunCalls(f, s, calls[..l]);
    AroundCall(f, s, calls, l);
    AnsweredJob(f, at, calls[l], i);
    run := Latest(at.runs, calls[l].companyId, d).value;
    LatestIsNewest(at.runs, calls[l].companyId, d, run);
  }

  /** An answer computed by its call is a fresh run of that call. */
  lemma ComputedJob(f: Formula, s: Store, calls: seq<Call>, k: nat, j: nat, d: Definition) returns (run: ModelRun)
    requires ValidStore(s) && k < |calls| && Answers(f, s, calls, k, j, d) && !ReplyAt(f, s, calls, k).value[j].cached
    ensures calls[k].companyId in calls[k].tables.companies
    ensures run in RunCalls(f, s, calls[..k + 1]).runs && run.id == ReplyAt(f, s, calls, k).value[j].runId
    ensures run == FreshRun(f, calls[k], DatasetOf(calls[k].tables, calls[k].settings, calls[k].companyId), d, run.id)
  {
    hide Compute, RunCalls, Fill, Hit, Latest, SelectDefinitions, DatasetOf, SignedInput, Recomputed;
    var at := RunCalls(f, s, calls[..k]);
    AroundCall(f, s, calls, k);
    AnsweredJob(f, at, calls[k], j);
    run := FreshRun(f, calls[k], DatasetOf(calls[k].tables, calls[k].settings, calls[k].companyId), d,
                    ReplyAt(f, s, calls, k).value[j].runId);
  }

  /** The run call `l` answers with is the one call `k` computed, and both sign the same. */
  lemma SharedRun(f: Formula, s: Store, calls: seq<Call>, k: nat, j: nat, l: nat, i: nat, d: Definition)
    returns (run: ModelRun)
    requires AnsweredFrom(f, s, calls, k, j, l, i, d)
    ensures calls[k].companyId in calls[k].tables.companies && calls[l].companyId in calls[l].tables.companies
    ensures UniqueIds(RunCalls(f, s, calls).runs) && run in RunCalls(f, s, calls).runs
    ensures run.id == ReplyAt(f, s, calls, l).value[i].runId && run.companyId == calls[l].companyId &&
            run.modelName == d.name
    ensures var (dataK, dataL) := (DatasetOf(calls[k].tables, calls[k].settings, calls[k].companyId),
                                   DatasetOf(calls[l].tables, calls[l].settings, calls[l].companyId));
            && SignedInput(dataK, calls[k].settings, d) == SignedInput(dataL, calls[l].settings, d)
            && run.result == f(d, SignedInput(dataL, calls[l].settings, d), HiddenInput(dataK, calls[k].settings, d))
  {
    hide Compute, RunCalls, SelectDefinitions, DatasetOf, SignedInput, HiddenInput, Answers, ReplyAt;
    run := ComputedJob(f, s, calls, k, j, d);
    var found := CachedJob(f, s, calls, l, i, d);
    AroundCall(f, s, calls, k);
    AroundCall(f, s, calls, l);
    StoreGrows(f, s, calls, l);
    SameIdSameRun(RunCalls(f, s, calls).runs, run, found);
  }

  lemma StoreGrows(f: Formula, s: Store, calls: seq<Call>, l: nat)
    requires ValidStore(s) && l <= |calls|
    ensures RunCalls(f, s, calls[..l]).runs <= RunCalls(f, s, calls).runs
  {
    hide Compute, ValidStore;
    HistoryKeepsStore(f, s, calls[..l]);
    RunCallsSplits(f, s, calls, l);
    HistoryKeepsStore(f, RunCalls(f, s, calls[..l]), calls[l..]);
  }

  /** The jobs of a reply carry their definition's name and version and their call's company. */
  lemma JobOfCall(f: Formula, s: Store, calls: seq<Call>, l: nat, i: nat, d: Definition)
    requires l < |calls| && Answers(f, s, calls, l, i, d)
    ensures var job := ReplyAt(f, s, calls, l).value[i];
            job.companyId == calls[l].companyId && job.modelName == d.name && job.modelVersion == d.version
  {
    hide Compute, RunCalls, Fill, Hit, Latest, SelectDefinitions, DatasetOf, FreshRun;
    AnsweredJob(f, RunCalls(f, s, calls[..l]), calls[l], i);
  }

  lemma CurrentExactlyWhen(f: Formula, s: Store, calls: seq<Call>, k: nat, j: nat, l: nat, i: nat, d: Definition)
    requires AnsweredFrom(f, s, calls, k, j, l, i, d)
    ensures HiddenAt(calls[k], d).Some? && HiddenAt(calls[l], d).Some?
    ensures var signed :=
            SignedInput(DatasetOf(calls[l].tables, calls[l].settings, calls[l].companyId), calls[l].settings, d);
            AnswerIsCurrent(f, s, calls, l, i, d) <==>
            f(d, signed, HiddenAt(calls[k], d).value) == f(d, signed, HiddenAt(calls[l], d).value)
  {
    hide Compute, RunCalls, SelectDefinitions, DatasetOf, SignedInput, HiddenInput, ReplyAt;
    var run := SharedRun(f, s, calls, k, j, l, i, d);
    JobOfCall(f, s, calls, l, i, d);
    var runs := RunCalls(f, s, calls).runs;
    forall r | r in runs && r.id == run.id ensures r == run { SameIdSameRun(runs, r, run); }
  }

  /**
   The exact condition, over any history. Let some call have computed a run, and a later one, with any other calls and
   models in between, answer from the cache with it. The answer is what recomputing would give, for every formula, if
   and only if the hidden inputs (the classification, and for residual income the risk-free rate) are those of the
   first call.
   */
  lemma HitIsRightExactlyWhenHiddenUnchanged(
    g: Formula, s: Store, calls: seq<Call>, k: nat, j: nat, l: nat, i: nat, d: Definition)
    requires AnsweredFrom(g, s, calls, k, j, l, i, d)
    ensures (forall f: Formula :: AnswerIsCurrent(f, s, calls, l, i, d)) <==>
            HiddenAt(calls[k], d) == HiddenAt(calls[l], d)
  {
    hide HiddenAt, AnswerIsCurrent, SignedInput, DatasetOf, Compute, SelectDefinitions;
    CurrentExactlyWhen(g, s, calls, k, j, l, i, d);
    var h1, h2 := HiddenAt(calls[k], d).value, HiddenAt(calls[l], d).value;
    if h1 == h2 {
      forall f: Formula ensures AnswerIsCurrent(f, s, calls, l, i, d) {
        SameForFormula(f, g, s, calls, k, j, l, i, d);
        CurrentExactlyWhen(f, s, calls, k, j, l, i, d);
      }
    } else {
      var f: Formula :=
        (e: Definition, x: Signed, h: Hidden) => ModelResult(if h == h1 then "stale" else "current", None);
      SameForFormula(f, g, s, calls, k, j, l, i, d);
      CurrentExactlyWhen(f, s, calls, k, j, l, i, d);
      assert !AnswerIsCurrent(f, s, calls, l, i, d);
    }
  }

  lemma SameForFormula(
    f: Formula, g: Formula, s: Store, calls: seq<Call>, k: nat, j: nat, l: nat, i: nat, d: Definition)
    requires AnsweredFrom(g, s, calls, k, j, l, i, d)
    ensures AnsweredFrom(f, s, calls, k, j, l, i, d)
  {
    hide ReplyAt, SelectDefinitions;
    AnswersForgetFormula(f, g, s, calls, k);
    AnswersForgetFormula(f, g, s, calls, l);
  }

  // ----- a stale answer -----

  /** The same request again, unforced, after nothing but the risk-free rate has changed. */
  ghost predicate OnlyRateChanged(c1: Call, c2: Call) {
    c2 == c1.(settings := c1.settings.(riskFree := c2.settings.riskFree), force := false, now := c2.now) &&
    c1.settings.riskFree != c2.settings.riskFree
  }

  /** The same request again, unforced, after nothing but the company's classification has changed. */
  ghost predicate OnlyClassificationChanged(c1: Call, c2: Call) {
    c1.companyId in c1.tables.companies && c2.companyId in c2.tables.companies &&
    c2 == c1.(tables := c1.tables.(companies := c2.tables.companies), force := false, now := c2.now) &&
    c1.tables.companies[c1.companyId] != c2.tables.companies[c1.companyId]
  }

  /** The same models asked again, unforced, of a company that still has statements. */
  ghost predicate AskedAgain(c1: Call, c2: Call) {
    c2.companyId == c1.companyId && c2.names == c1.names && !c2.force && c2.companyId in c2.tables.companies &&
    DatasetOf(c2.tables, c2.settings, c2.companyId).financials != []
  }

  /** A first call that computes the `j`-th of its distinct models. */
  ghost predicate Computes(s: Store, c: Call, j: nat, d: Definition) {
    ValidStore(s) && ClockAhead(s, c) && c.companyId in c.tables.companies &&
    DatasetOf(c.tables, c.settings, c.companyId).financials != [] && SelectDefinitions(c.names).Ok? &&
    Distinct(SelectDefinitions(c.names).value) && j < |SelectDefinitions(c.names).value| &&
    SelectDefinitions(c.names).value[j] == d && !Hit(s.runs, c, DatasetOf(c.tables, c.settings, c.companyId), d)
  }

  lemma FirstReply(f: Formula, s: Store, c1: Call, c2: Call, j: nat, d: Definition)
    requires Computes(s, c1, j, d) && AskedAgain(c1, c2)
    ensures Answers(f, s, [c1, c2], 0, j, d) && !ReplyAt(f, s, [c1, c2], 0).value[j].cached
    ensures Answers(f, s, [c1, c2], 1, j, d)
    ensures ReplyAt(f, s, [c1, c2], 1) == Compute(f, Compute(f, s, c1).0, c2).1
    ensures ReplyAt(f, s, [c1, c2], 0) == Compute(f, s, c1).1
    ensures RunCalls(f, s, [c1, c2]) == Compute(f, Compute(f, s, c1).0, c2).0
  {
    hide Hit, Latest, SelectDefinitions, Fill, SignedInput, RunCalls;
    assert [c1, c2][..0] == [] && [c1, c2][..1] == [c1] && [c1, c2][1..] == [c2];
    OneCall(f, s, c1);
    TwoCalls(f, s, c1, c2);
    var data := DatasetOf(c1.tables, c1.settings, c1.companyId);
    FillAnswers(f, s, c1, data, SelectDefinitions(c1.names).value, j);
  }

  lemma TwoCalls(f: Formula, s: Store, c1: Call, c2: Call)
    ensures RunCalls(f, s, []) == s
    ensures RunCalls(f, s, [c1, c2]) == Compute(f, Compute(f, s, c1).0, c2).0
  {
    hide Compute;
    assert [c1, c2][1..] == [c2];
    OneCall(f, Compute(f, s, c1).0, c2);
  }

  /** After a first call that computed the model's run, that run is the latest, and the only one the call appended for
      it. */
  lemma LatestIsTheAnswer(f: Formula, s: Store, c: Call, j: nat, d: Definition) returns (run: ModelRun)
    requires Computes(s, c, j, d)
    ensures Compute(f, s, c).1.Ok? && j < |Compute(f, s, c).1.value|
    ensures Latest(Compute(f, s, c).0.runs, c.companyId, d) == Some(run) && run.id == Compute(f, s, c).1.value[j].runId
    ensures run == FreshRun(f, c, DatasetOf(c.tables, c.settings, c.companyId), d, run.id)
  {
    hide Hit, Latest, SelectDefinitions, Fill, SignedInput, Recomputed, DatasetOf;
    var data := DatasetOf(c.tables, c.settings, c.companyId);
    var defs := SelectDefinitions(c.names).value;
    var appended := Fill(f, s, c, data, defs).appended;
    ComputeKeepsStore(f, s, c);
    LatestAfterMiss(f, s, c, data, defs, d);
    FillAnswers(f, s, c, data, defs, j);
    AppendsOnce(f, s, c, data, defs);
    run := Latest(s.runs + appended, c.companyId, d).value;
    var x :| 0 <= x < |appended| && appended[x] == run;
    var id := Compute(f, s, c).1.value[j].runId;
    var y :| 0 <= y < |appended| && appended[y] == FreshRun(f, c, data, d, id);
    assert appended[x].modelName == appended[y].modelName;
  }

  /** Whenever the second call answers from the cache, it is with the run of the first. */
  lemma SecondAnswersFirst(f: Formula, s: Store, c1: Call, c2: Call, j: nat, d: Definition)
    requires Computes(s, c1, j, d) && AskedAgain(c1, c2)
    ensures Answers(f, s, [c1, c2], 1, j, d)
    ensures ReplyAt(f, s, [c1, c2], 1).value[j].cached ==> AnsweredFrom(f, s, [c1, c2], 0, j, 1, j, d)
    ensures ReplyAt(f, s, [c1, c2], 1).value[j].cached <==>
            SignedInput(DatasetOf(c1.tables, c1.settings, c1.companyId), c1.settings, d) ==
            SignedInput(DatasetOf(c2.tables, c2.settings, c2.companyId), c2.settings, d)
  {
    hide Compute, Latest, Fill, SignedInput, Recomputed, ReplyAt, RunCalls;
    FirstReply(f, s, c1, c2, j, d);
    var run := LatestIsTheAnswer(f, s, c1, j, d);
    hide DatasetOf, SelectDefinitions;
    AnsweredJob(f, Compute(f, s, c1).0, c2, j);
  }

  lemma ComputedIsCurrent(f: Formula, s: Store, calls: seq<Call>, l: nat, i: nat, d: Definition)
    requires ValidStore(s) && l < |calls| && Answers(f, s, calls, l, i, d) && !ReplyAt(f, s, calls, l).value[i].cached
    ensures AnswerIsCurrent(f, s, calls, l, i, d)
  {
    hide Compute, RunCalls, SelectDefinitions, DatasetOf, SignedInput, HiddenInput, ReplyAt;
    var run := ComputedJob(f, s, calls, l, i, d);
    JobOfCall(f, s, calls, l, i, d);
    AroundCall(f, s, calls, l);
  }

  lemma RateInSignature(data: Dataset, s1: Settings, s2: Settings, d: Definition)
    requires s2 == s1.(riskFree := s2.riskFree) && s1.riskFree != s2.riskFree && d in REGISTRY
    ensures d.name == "residual_income" ==> SignedInput(data, s1, d) == SignedInput(data, s2, d)
    ensures HiddenInput(data, s1, d) != HiddenInput(data, s2, d) <==> d.name == "residual_income"
  {
  }

  /**
   A change of the risk-free rate alone makes some formula's answer stale exactly for residual income: its formula reads
   the rate, and `_model_config` signs it for dcf, reverse_dcf and roic only.
   */
  lemma RateChangeIsMissedOnlyByResidualIncome(s: Store, c1: Call, c2: Call, j: nat, d: Definition)
    requires Computes(s, c1, j, d) && OnlyRateChanged(c1, c2)
    ensures (exists f: Formula :: !AnswerIsCurrent(f, s, [c1, c2], 1, j, d)) <==> d.name == "residual_income"
  {
    assert d in REGISTRY && c2.companyId in c2.tables.companies;
    assert DatasetOf(c2.tables, c2.settings, c2.companyId) == DatasetOf(c1.tables, c1.settings, c1.companyId);
    RateInSignature(DatasetOf(c1.tables, c1.settings, c1.companyId), c1.settings, c2.settings, d);
    assert AskedAgain(c1, c2);
    hide DatasetOf, SelectDefinitions, SignedInput, HiddenInput, Computes, Answers, AnsweredFrom, AnswerIsCurrent,
      ReplyAt;
    if d.name == "residual_income" {
      var g: Formula := (e: Definition, x: Signed, h: Hidden) => ModelResult("any", None);
      SecondAnswersFirst(g, s, c1, c2, j, d);
      HitIsRightExactlyWhenHiddenUnchanged(g, s, [c1, c2], 0, j, 1, j, d);
    } else {
      forall f: Formula ensures AnswerIsCurrent(f, s, [c1, c2], 1, j, d) {
        RightWhenHiddenUnchanged(f, s, c1, c2, j, d);
      }
    }
  }

  lemma RightWhenHiddenUnchanged(f: Formula, s: Store, c1: Call, c2: Call, j: nat, d: Definition)
    requires Computes(s, c1, j, d) && AskedAgain(c1, c2) && HiddenAt(c1, d) == HiddenAt(c2, d)
    ensures AnswerIsCurrent(f, s, [c1, c2], 1, j, d)
  {
    assert ValidStore(s);
    hide HiddenAt, SignedInput, Computes, Answers, AnswerIsCurrent, ReplyAt, ValidStore, AnsweredFrom;
    SecondAnswersFirst(f, s, c1, c2, j, d);
    if ReplyAt(f, s, [c1, c2], 1).value[j].cached {
      CurrentExactlyWhen(f, s, [c1, c2], 0, j, 1, j, d);
    } else {
      ComputedIsCurrent(f, s, [c1, c2], 1, j, d);
    }
  }

  /** A change of the classification alone makes some formula's answer stale, for every model. */
  lemma ClassificationChangeIsMissedByEveryModel(s: Store, c1: Call, c2: Call, j: nat, d: Definition)
    requires Computes(s, c1, j, d) && OnlyClassificationChanged(c1, c2)
    ensures exists f: Formula :: !AnswerIsCurrent(f, s, [c1, c2], 1, j, d)
  {
    var g: Formula := (e: Definition, x: Signed, h: Hidden) => ModelResult("any", None);
    assert AskedAgain(c1, c2) && HiddenAt(c1, d) != HiddenAt(c2, d);
    assert SignedInput(DatasetOf(c1.tables, c1.settings, c1.companyId), c1.settings, d) ==
           SignedInput(DatasetOf(c2.tables, c2.settings, c2.companyId), c2.settings, d);
    hide HiddenAt, SignedInput, DatasetOf, Computes, Answers, AnsweredFrom, AnswerIsCurrent, ReplyAt, AskedAgain;
    SecondAnswersFirst(g, s, c1, c2, j, d);
    HitIsRightExactlyWhenHiddenUnchanged(g, s, [c1, c2], 0, j, 1, j, d);
  }

  // ----- an instance -----

  /** Company 1, one annual statement, every model, at a given rate. */
  function ExampleCall(rate: real): Call {
    Call(Tables(map[1 := Classification(None, None, None)], [ExampleStatement()], []),
         Settings(false, 8, "auto", RiskFreeRate("treasury", "10y", 20000, rate)), 1, None, false, 0)
  }

  function ExampleStatement(): Statement {
    Statement(1, 1, CANONICAL_STATEMENT_TYPE, "10-K", 19000, 19365, "", 0, None, None, Payload("{}", map[]))
  }

  lemma ExampleComputes(rate: real)
    ensures Computes(Store([], 1), ExampleCall(rate), 8, REGISTRY[8])
  {
    var c := ExampleCall(rate);
    ExampleHasData(c.tables.statements);
    hide Deduplicated, LoadCanonical, SignedInput;
    RegistryIsDistinct();
    assert [ExampleStatement()] == c.tables.statements;
  }

  lemma ExampleHasData(table: seq<Statement>)
    requires table == [ExampleStatement()]
    ensures Deduplicated(LoadCanonical(table, 1, 8)) != []
  {
    hide Deduplicated, FirstOfKey;
    AllCanonicalFacts(table, 1);
    assert table[0] in table && table[0] in AllCanonical(table, 1);
    DatasetSeries(table, 1, 8);
    assert HasKey(Deduplicated(LoadCanonical(table, 1, 8)), Key(LoadCanonical(table, 1, 8)[0]));
  }

  lemma RegistryIsDistinct()
    ensures Distinct(REGISTRY)
  {
  }

  /** Concretely: residual income at 4 percent is answered again after the rate has become 5 percent. */
  lemma StaleResidualIncome()
    ensures exists f: Formula ::
            !AnswerIsCurrent(f, Store([], 1), [ExampleCall(0.04), ExampleCall(0.05)], 1, 8, REGISTRY[8])
  {
    hide Computes, AnswerIsCurrent;
    ExampleComputes(0.04);
    assert REGISTRY[8].name == "residual_income";
    RateChangeIsMissedOnlyByResidualIncome(Store([], 1), ExampleCall(0.04), ExampleCall(0.05), 8, REGISTRY[8]);
  }

  /** The example's company, reclassified as a bank. */
  function ReclassifiedCall(rate: real): Call {
    var c := ExampleCall(rate);
    c.(tables := c.tables.(companies := map[1 := Classification(Some("Banks"), None, None)]))
  }

  /** Concretely: residual income is answered again after the company has been reclassified. */
  lemma StaleClassification()
    ensures exists f: Formula ::
              !AnswerIsCurrent(f, Store([], 1), [ExampleCall(0.04), ReclassifiedCall(0.04)], 1, 8, REGISTRY[8])
  {
    hide Computes, AnswerIsCurrent;
    ExampleComputes(0.04);
    ClassificationChangeIsMissedByEveryModel(Store([], 1), ExampleCall(0.04), ReclassifiedCall(0.04), 8, REGISTRY[8]);
  }
}
