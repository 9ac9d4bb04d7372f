/**
 The model-run cache: `compute_models` reuses the newest version-compatible run of a definition when its signature
 matches the current inputs, and otherwise computes and appends. Formulas are a parameter; a formula may read the
 signed inputs and the hidden ones, which are the inputs the source reads without signing them.
 */
module ModelCache {
  import opened Financials
  import opened Ordering
  import opened Text
  import opened Wrappers

  datatype Classification =
    Classification(sector: Option<string>, marketSector: Option<string>, marketIndustry: Option<string>)

  datatype PriceRow = PriceRow(
    id: int, companyId: int, close: Option<real>, tradeDate: int, source: Option<string>, lastUpdated: int,
    fetchedAt: Option<int>)

  datatype MarketSnapshot =
    MarketSnapshot(latestPrice: Option<real>, priceDate: int, priceSource: Option<string>, fetchedAt: Option<int>)

  datatype RiskFreeRate = RiskFreeRate(sourceName: string, tenor: string, observationDate: int, rateUsed: real)

  datatype Definition = Definition(name: string, version: string, calculationVersion: Option<string>)

  datatype Config = NoConfig | DupontMode(mode: string) | SignedRate(rate: RiskFreeRate)

  /** What the signature covers. */
  datatype Signed = Signed(
    periods: seq<Point>, calculationVersion: Option<string>, market: Option<MarketSnapshot>, config: Config)

  /** SHA-256 of the canonical JSON, taken to be injective. */
  datatype Digest = Sha256(content: Signed)

  /** What a formula reads although the signature does not cover it. */
  datatype Hidden = Hidden(classification: Classification, unsignedRate: Option<RiskFreeRate>)

  datatype ModelResult = ModelResult(payload: string, calculationVersion: Option<string>)

  datatype ModelRun = ModelRun(
    id: int, companyId: int, modelName: string, modelVersion: string, calculationVersion: Option<string>,
    signature: Option<Digest>, result: ModelResult, createdAt: int)

  datatype JobResult = JobResult(companyId: int, modelName: string, modelVersion: string, cached: bool, runId: int)

  datatype ComputeError = NoSuchCompany(companyId: int) | UnsupportedModel(name: string)

  type Formula = (Definition, Signed, Hidden) -> ModelResult

  const REGISTRY: seq<Definition> := [
    Definition("dcf", "2.5.0", Some("dcf_ev_bridge_v2")),
    Definition("dupont", "1.1.1", None),
    Definition("piotroski", "1.5.0", Some("piotroski_ratio_scale_v1")),
    Definition("altman_z", "2.0.0", None),
    Definition("ratios", "1.2.1", None),
    Definition("reverse_dcf", "1.4.0", Some("reverse_dcf_ev_target_v1")),
    Definition("roic", "1.2.2", None),
    Definition("capital_allocation", "1.3.0", None),
    Definition("residual_income", "1.1.0", None)
  ]

  function CalculationVersionOf(modelName: string): Option<string> {
    var name := Lower(modelName);
    if name == "dcf" then Some("dcf_ev_bridge_v2")
    else if name == "reverse_dcf" then Some("reverse_dcf_ev_target_v1")
    else if name == "piotroski" then Some("piotroski_ratio_scale_v1")
    else None
  }

  predicate HasCurrentCalculationVersion(modelName: string, version: Option<string>) {
    var expected := CalculationVersionOf(modelName);
    expected == None || version == expected
  }

  function NonBlank(version: Option<string>): Option<string> {
    if version.Some? && Strip(version.value) != "" then Some(Strip(version.value)) else None
  }

  /** The column when it is not blank, else the value inside the stored result. */
  function RunCalculationVersion(run: ModelRun): Option<string> {
    var column := NonBlank(run.calculationVersion);
    if column.Some? then column else NonBlank(run.result.calculationVersion)
  }

  /** A run's version is its column stripped, or when that is missing or blank, the one in its result. */
  lemma RunVersionMeaning(run: ModelRun)
    ensures var (column, stored) := (run.calculationVersion, run.result.calculationVersion);
            RunCalculationVersion(run) ==
            if column.Some? && Strip(column.value) != "" then Some(Strip(column.value))
            else if stored.Some? && Strip(stored.value) != "" then Some(Strip(stored.value))
            else None
  {
    hide Strip;
  }

  /** The calculation version of a registered model, whatever the case of its name. */
  lemma VersionInAnyCase(name: string, i: nat)
    requires i < |REGISTRY| && Lower(name) == REGISTRY[i].name
    ensures CalculationVersionOf(name) == REGISTRY[i].calculationVersion
  {
    hide Lower;
  }

  // ----- the dataset of one call -----

  datatype Tables = Tables(companies: map<int, Classification>, statements: seq<Statement>, prices: seq<PriceRow>)

  datatype Settings = Settings(strictOfficial: bool, maxPeriods: nat, dupontMode: string, riskFree: RiskFreeRate)

  datatype Dataset = Dataset(classification: Classification, financials: seq<Point>, market: Option<MarketSnapshot>)

  /** ORDER BY trade_date DESC, last_updated DESC, id DESC. */
  predicate PricedBefore(a: PriceRow, b: PriceRow) {
    a.tradeDate > b.tradeDate ||
    (a.tradeDate == b.tradeDate &&
     (a.lastUpdated > b.lastUpdated || (a.lastUpdated == b.lastUpdated && a.id >= b.id)))
  }

  function LatestSnapshot(prices: seq<PriceRow>, companyId: int, strictOfficial: bool): Option<MarketSnapshot> {
    var rows := SortBy(PricedBefore, Filter((p: PriceRow) => p.companyId == companyId, prices));
    if strictOfficial || rows == [] then None
    else Some(MarketSnapshot(rows[0].close, rows[0].tradeDate, rows[0].source, rows[0].fetchedAt))
  }

  /** No row of the company has a later trade date than `p`, nor, on its day, a later update, nor then a greater id. */
  ghost predicate NonePricedLater(prices: seq<PriceRow>, companyId: int, p: PriceRow) {
    forall q :: q in prices && q.companyId == companyId ==>
      q.tradeDate <= p.tradeDate &&
      (q.tradeDate == p.tradeDate ==> q.lastUpdated <= p.lastUpdated) &&
      (q.tradeDate == p.tradeDate && q.lastUpdated == p.lastUpdated ==> q.id <= p.id)
  }

  predicate Shows(s: MarketSnapshot, p: PriceRow) {
    s.latestPrice == p.close && s.priceDate == p.tradeDate && s.priceSource == p.source && s.fetchedAt == p.fetchedAt
  }

  /** The snapshot shows the company's newest price, and is missing exactly in strict mode or without any price. */
  lemma SnapshotIsNewestPrice(prices: seq<PriceRow>, companyId: int, strictOfficial: bool)
    ensures LatestSnapshot(prices, companyId, strictOfficial) == None <==>
            strictOfficial || forall p :: p in prices ==> p.companyId != companyId
    ensures LatestSnapshot(prices, companyId, strictOfficial).Some? ==>
              exists p :: p in prices && p.companyId == companyId && NonePricedLater(prices, companyId, p) &&
                Shows(LatestSnapshot(prices, companyId, strictOfficial).value, p)
  {
    var chosen := Filter((p: PriceRow) => p.companyId == companyId, prices);
    var rows := SortBy(PricedBefore, chosen);
    SortSorts(PricedBefore, chosen);
    SortMembers(PricedBefore, chosen);
    if rows != [] {
      assert rows[0] in rows;
      forall q | q in prices && q.companyId == companyId ensures PricedBefore(rows[0], q) {
        assert q in rows;
        var i :| 0 <= i < |rows| && rows[i] == q;
      }
    } else {
      forall p | p in prices ensures p.companyId != companyId { assert p !in rows; }
    }
  }

  function DatasetOf(t: Tables, s: Settings, companyId: int): Dataset
    requires companyId in t.companies
  {
    Dataset(t.companies[companyId], Deduplicated(LoadCanonical(t.statements, companyId, s.maxPeriods)),
            LatestSnapshot(t.prices, companyId, s.strictOfficial))
  }

  function ModelConfig(s: Settings, d: Definition): Config {
    if d.name == "dupont" then DupontMode(s.dupontMode)
    else if d.name in {"dcf", "reverse_dcf", "roic"} then SignedRate(s.riskFree)
    else NoConfig
  }

  function SignedInput(data: Dataset, s: Settings, d: Definition): Signed {
    Signed(data.financials, d.calculationVersion, data.market, ModelConfig(s, d))
  }

  /**
   Every model's result reads the classification; residual income also reads the risk-free rate, which
   `_model_config` signs for dcf, reverse_dcf and roic only.
   */
  function HiddenInput(data: Dataset, s: Settings, d: Definition): Hidden {
    Hidden(data.classification, if d.name == "residual_income" then Some(s.riskFree) else None)
  }

  /** What the formula of a model reads, signed or not. */
  datatype Reads = Reads(
    classification: Classification, financials: seq<Point>, market: Option<MarketSnapshot>,
    rate: Option<RiskFreeRate>, dupontMode: Option<string>)

  function ReadBy(data: Dataset, s: Settings, d: Definition): Reads {
    Reads(data.classification, data.financials, data.market,
          if d.name in {"dcf", "reverse_dcf", "roic", "residual_income"} then Some(s.riskFree) else None,
          if d.name == "dupont" then Some(s.dupontMode) else None)
  }

  /** Signed and hidden inputs together are what the formula reads: no more, and no less. */
  lemma SignedAndHiddenAreWhatIsRead(x: Dataset, s: Settings, y: Dataset, t: Settings, d: Definition)
    ensures SignedInput(x, s, d) == SignedInput(y, t, d) && HiddenInput(x, s, d) == HiddenInput(y, t, d) <==>
            ReadBy(x, s, d) == ReadBy(y, t, d)
  {
  }

  function Recomputed(f: Formula, data: Dataset, s: Settings, d: Definition): ModelResult {
    f(d, SignedInput(data, s, d), HiddenInput(data, s, d))
  }

  // ----- looking a run up -----

  predicate Newer(a: ModelRun, b: ModelRun) {
    a.createdAt > b.createdAt || (a.createdAt == b.createdAt && a.id >= b.id)
  }

  /** ORDER BY model_name ASC, model_version ASC, created_at DESC, id DESC. */
  predicate RunOrder(a: ModelRun, b: ModelRun) {
    if a.modelName != b.modelName then LexLe(a.modelName, b.modelName)
    else if a.modelVersion != b.modelVersion then LexLe(a.modelVersion, b.modelVersion)
    else Newer(a, b)
  }

  /** A run that may answer for `d`: same company, name and version, and computed with the current semantics. */
  predicate Candidate(run: ModelRun, companyId: int, d: Definition) {
    run.companyId == companyId && run.modelName == d.name && run.modelVersion == d.version &&
    HasCurrentCalculationVersion(d.name, RunCalculationVersion(run))
  }

  function Latest(runs: seq<ModelRun>, companyId: int, d: Definition): Option<ModelRun> {
    var rows := SortBy(Newer, Filter((r: ModelRun) => Candidate(r, companyId, d), runs));
    if rows == [] then None else Some(rows[0])
  }

  ghost predicate UniqueIds(runs: seq<ModelRun>) {
    forall i, j :: 0 <= i < j < |runs| ==> runs[i].id != runs[j].id
  }

  lemma NewerOrder()
    ensures Total(Newer) && Transitive(Newer)
  {
  }

  lemma RunOrderIsOrder()
    ensures Total(RunOrder) && Transitive(RunOrder)
  {
    LexOrder();
  }

  /** No candidate was created later than `r`, nor at the same time with a greater id. */
  ghost predicate NoneNewer(runs: seq<ModelRun>, companyId: int, d: Definition, r: ModelRun) {
    forall x :: x in runs && Candidate(x, companyId, d) ==>
      x.createdAt <= r.createdAt && (x.createdAt == r.createdAt ==> x.id <= r.id)
  }

  /** The lookup picks the unique newest candidate, and finds one whenever there is one. */
  lemma LatestIsNewest(runs: seq<ModelRun>, companyId: int, d: Definition, r: ModelRun)
    requires UniqueIds(runs)
    ensures Latest(runs, companyId, d) == Some(r) <==>
            r in runs && Candidate(r, companyId, d) && NoneNewer(runs, companyId, d, r)
    ensures Latest(runs, companyId, d) == None <==> forall x :: x in runs ==> !Candidate(x, companyId, d)
  {
    var chosen := Filter((r: ModelRun) => Candidate(r, companyId, d), runs);
    var rows := SortBy(Newer, chosen);
    NewerOrder();
    SortSorts(Newer, chosen);
    SortMembers(Newer, chosen);
    if rows != [] {
      assert rows[0] in rows;
      forall x | x in runs && Candidate(x, companyId, d) ensures Newer(rows[0], x) {
        assert x in rows;
        var i :| 0 <= i < |rows| && rows[i] == x;
      }
    } else {
      forall x | x in runs ensures !Candidate(x, companyId, d) {
        assert x !in rows;
      }
    }
  }

  /** The rows the batched query returns: the cross product of the requested names and versions, in run order. */
  function BatchedRows(runs: seq<ModelRun>, companyId: int, names: set<string>, versions: set<string>): seq<ModelRun> {
    SortBy(RunOrder,
           Filter((r: ModelRun) => r.companyId == companyId && r.modelName in names &&
             r.modelVersion in versions, runs))
  }

  /** `rows[i]` is the first row that may answer for `d`. */
  predicate FirstCandidate(rows: seq<ModelRun>, companyId: int, d: Definition, i: nat)
    requires i < |rows|
  {
    Candidate(rows[i], companyId, d) && forall j :: 0 <= j < i ==> !Candidate(rows[j], companyId, d)
  }

  lemma FirstCandidateIsLatest(
      runs: seq<ModelRun>, companyId: int, names: set<string>, versions: set<string>, d: Definition, i: nat)
    requires UniqueIds(runs) && d.name in names && d.version in versions
    requires i < |BatchedRows(runs, companyId, names, versions)|
    requires FirstCandidate(BatchedRows(runs, companyId, names, versions), companyId, d, i)
    ensures Latest(runs, companyId, d) == Some(BatchedRows(runs, companyId, names, versions)[i])
  {
    var rows := BatchedRows(runs, companyId, names, versions);
    BatchedRowsFacts(runs, companyId, names, versions);
    forall x | x in runs && Candidate(x, companyId, d) ensures Newer(rows[i], x) {
      assert x in rows;
      var j :| 0 <= j < |rows| && rows[j] == x;
      assert i <= j;
      if i < j { assert RunOrder(rows[i], rows[j]); }
    }
    assert rows[i] in rows;
    LatestIsNewest(runs, companyId, d, rows[i]);
  }

  lemma BatchedRowsFacts(runs: seq<ModelRun>, companyId: int, names: set<string>, versions: set<string>)
    ensures Sorted(RunOrder, BatchedRows(runs, companyId, names, versions))
    ensures forall r :: r in BatchedRows(runs, companyId, names, versions) <==>
              r in runs && r.companyId == companyId && r.modelName in names && r.modelVersion in versions
  {
    var chosen := Filter(
      (r: ModelRun) => r.companyId == companyId && r.modelName in names && r.modelVersion in versions, runs);
    RunOrderIsOrder();
    SortSorts(RunOrder, chosen);
    SortMembers(RunOrder, chosen);
  }

  lemma NoCandidateNoLatest(
      runs: seq<ModelRun>, companyId: int, names: set<string>, versions: set<string>, d: Definition)
    requires UniqueIds(runs) && d.name in names && d.version in versions
    requires forall r :: r in BatchedRows(runs, companyId, names, versions) ==> !Candidate(r, companyId, d)
    ensures Latest(runs, companyId, d) == None
  {
    BatchedRowsFacts(runs, companyId, names, versions);
    var rows := SortBy(Newer, Filter((r: ModelRun) => Candidate(r, companyId, d), runs));
    if rows != [] { LatestIsNewest(runs, companyId, d, rows[0]); }
  }

  ghost predicate KeyedByNameAndVersion(definitions: seq<Definition>) {
    forall d, e :: d in definitions && e in definitions && d.name == e.name && d.version == e.version ==> d == e
  }

  function Lookup<K, V>(m: map<K, V>, k: K): Option<V> {
    if k in m then Some(m[k]) else None
  }

  /** After `n` rows, `found` is the first that may answer for `d`. */
  ghost predicate Scanned(found: Option<ModelRun>, rows: seq<ModelRun>, companyId: int, d: Definition, n: nat)
    requires n <= |rows|
  {
    match found
    case None => forall j :: 0 <= j < n ==> !Candidate(rows[j], companyId, d)
    case Some(run) => exists j :: 0 <= j < n && run == rows[j] && FirstCandidate(rows, companyId, d, j)
  }

  lemma ScannedIsLatest(runs: seq<ModelRun>, companyId: int, names: set<string>, versions: set<string>, d: Definition,
      found: Option<ModelRun>)
    requires UniqueIds(runs) && d.name in names && d.version in versions
    requires var rows := BatchedRows(runs, companyId, names, versions); Scanned(found, rows, companyId, d, |rows|)
    ensures Latest(runs, companyId, d) == found
  {
    var rows := BatchedRows(runs, companyId, names, versions);
    if found.Some? {
      var j :| 0 <= j < |rows| && found.value == rows[j] && FirstCandidate(rows, companyId, d, j);
      FirstCandidateIsLatest(runs, companyId, names, versions, d, j);
    } else {
      NoCandidateNoLatest(runs, companyId, names, versions, d);
    }
  }

  /** The loop's dictionary has, for every definition, what scanning for that definition alone would have. */
  ghost predicate AllScanned(latest: map<(string, string), ModelRun>, rows: seq<ModelRun>, companyId: int,
      definitions: seq<Definition>, n: nat)
    requires n <= |rows|
  {
    forall d :: d in definitions ==> Scanned(Lookup(latest, (d.name, d.version)), rows, companyId, d, n)
  }

  function RowKey(row: ModelRun): (string, string) {
    (row.modelName, row.modelVersion)
  }

  function DefinitionsByKey(definitions: seq<Definition>): map<(string, string), Definition>
    requires KeyedByNameAndVersion(definitions)
  {
    map d | d in definitions :: (d.name, d.version) := d
  }

  /** The two `continue` branches of the scan. */
  predicate Skipped(latest: map<(string, string), ModelRun>, byKey: map<(string, string), Definition>, row: ModelRun) {
    RowKey(row) in latest ||
    (RowKey(row) in byKey && !HasCurrentCalculationVersion(byKey[RowKey(row)].name, RunCalculationVersion(row)))
  }

  lemma ScanStep(latest: map<(string, string), ModelRun>, next: map<(string, string), ModelRun>, rows: seq<ModelRun>,
                 companyId: int, definitions: seq<Definition>, n: nat)
    requires n < |rows| && rows[n].companyId == companyId
    requires KeyedByNameAndVersion(definitions) && AllScanned(latest, rows, companyId, definitions, n)
    requires next == if Skipped(latest, DefinitionsByKey(definitions), rows[n]) then latest
                     else latest[RowKey(rows[n]) := rows[n]]
    ensures AllScanned(next, rows, companyId, definitions, n + 1)
  {
    forall d | d in definitions ensures Scanned(Lookup(next, (d.name, d.version)), rows, companyId, d, n + 1) {
      var found := Lookup(latest, (d.name, d.version));
      assert Scanned(found, rows, companyId, d, n);
      if found.Some? {
        assert Lookup(next, (d.name, d.version)) == found;
      } else if Candidate(rows[n], companyId, d) {
        assert FirstCandidate(rows, companyId, d, n);
      }
    }
  }

  /** One query for many definitions answers, for each, exactly what its own lookup would. */
  method LatestModelRuns(runs: seq<ModelRun>, companyId: int, definitions: seq<Definition>)
    returns (latest: map<(string, string), ModelRun>)
    requires UniqueIds(runs) && KeyedByNameAndVersion(definitions)
    ensures forall d :: d in definitions ==> Lookup(latest, (d.name, d.version)) == Latest(runs, companyId, d)
  {
    if |definitions| == 0 {
      return map[];
    }
    var names := set d | d in definitions :: d.name;
    var versions := set d | d in definitions :: d.version;
    var rows := BatchedRows(runs, companyId, names, versions);
    var byKey := DefinitionsByKey(definitions);
    latest := map[];
    assert forall r :: r in rows ==> r.companyId == companyId by { BatchedRowsFacts(runs, companyId, names, versions); }
    for i := 0 to |rows|
      invariant AllScanned(latest, rows, companyId, definitions, i)
    {
      var row := rows[i];
      ghost var before := latest;
      assert row in rows;
      if !Skipped(latest, byKey, row) {
        latest := latest[RowKey(row) := row];
      }
      ScanStep(before, latest, rows, companyId, definitions, i);
    }
    forall d | d in definitions ensures Lookup(latest, (d.name, d.version)) == Latest(runs, companyId, d) {
      ScannedIsLatest(runs, companyId, names, versions, d, Lookup(latest, (d.name, d.version)));
    }
  }
}
