/** Standardising a model result: the keys it reads, the keys it writes, and what it derives from one for the other. */
module OutputNormalization {
  import opened Confidence
  import opened Ordering
  import opened Text
  import opened Wrappers

  datatype Model =
    | AltmanZ | CapitalAllocation | Dcf | Dupont | Piotroski | Ratios | ResidualIncome | ReverseDcf | Roic
    | OtherModel(name: string)

  /** The names a result payload and its nested dictionaries are read or written under. */
  datatype Key =
    | CalculationVersion | StatusKey | ModelStatus | ConfidenceScore | ConfidenceReasons | FieldsUsed | ProxyUsage
    | StaleInputs | SectorSuitability | MisleadingReasons | ConfidenceSummary | StatusFlags | Explanation | FormulaIds
    | MissingRequired | MissingFields | DataQuality | InputQuality | ValueBasis | TargetValueBasis
    | ShareholderYieldBasis | CapitalCostProxy | AssumptionProvenance | Applicability
    | StartingCashFlowProxied | CapitalStructureProxied | StartingMarginProxied | UsedProxyBookEquity
    | Method | MarketCapDenominator | RiskFreeRate | ObservationDate | Classification | IsSupported
    | OtherKey(name: string)

  datatype Value =
    | Null
    | Truth(b: bool)
    | Number(n: real)
    | Words(s: string)
    | Items(items: seq<Value>)
    | Dict(fields: Payload)

  type Payload = map<Key, Value>

  type Day = int

  /** A statement period: its cadence, its end, and the fields its data have a value for. */
  datatype Period = Period(annual: bool, periodEnd: Option<Day>, known: set<string>)

  /** A market snapshot: the fields it has a value for, and the date of its price. */
  datatype Snapshot = Snapshot(known: set<string>, priceDate: Option<Day>)

  /** What a dataset contributes when the request payload does not. */
  datatype DatasetFacts = DatasetFacts(
    asOf: Option<Day>, snapshot: Option<Snapshot>, periods: seq<Period>, classification: Payload)

  datatype Inputs = Inputs(
    model: Model, version: Option<string>, requestAsOf: Option<Day>, requestPeriods: Option<seq<Period>>,
    requestSnapshot: Option<Snapshot>, companyContext: Option<Payload>, dataset: Option<DatasetFacts>, today: Day)

  datatype StaleInput =
    | OldStatements(observed: Day, age: int, threshold: int)
    | OldPrice(observed: Day, age: int)
    | OldRiskFreeRate(observed: Day, age: int)

  /** One proxy substitution: its target, the fields it used and the reason are fixed by its name. */
  datatype Proxy =
    | DcfCashFlow | DcfEnterpriseValue | DcfCash | ReverseDcfMargin | ReverseDcfEnterpriseValue | ReverseDcfCash
    | BookEquity | AverageMarketCap | DilutedShares | NoMarketCap | CapitalCost

  datatype SectorNote = Suitable | StructurallyUnreliable | BetterThanCashFlow | OnlyDirectional

  datatype Verdict = Verdict(status: Status, note: SectorNote, classification: Payload)

  datatype Misleading =
    | FieldsIncomplete(fields: seq<string>) | Approximated | InputsLag | SectorSays(note: SectorNote) | NotDecisionGrade

  /** The fixed texts, the parsers and the tables standardising relies on. */
  datatype Wording = Wording(
    reason: Reason -> string, misleading: Misleading -> string, baseline: Model -> seq<string>,
    explanation: Status -> string, flag: Flag -> string, summary: (Label, int, string) -> string,
    proxy: Proxy -> Value, stale: StaleInput -> Value, verdict: Verdict -> Value,
    text: Value -> string, parseDate: Value -> Option<Day>, financialLike: Payload -> bool,
    formulas: (Model, Payload) -> Value)

  // ----- reading a payload -----

  function Get(p: Payload, k: Key): Value {
    if k in p then p[k] else Null
  }

  function Truthy(v: Value): bool {
    match v
    case Null => false
    case Truth(b) => b
    case Number(n) => n != 0.0
    case Words(s) => s != ""
    case Items(items) => items != []
    case Dict(fields) => fields != map[]
  }

  function Either(a: Value, b: Value): Value {
    if Truthy(a) then a else b
  }

  function Inside(v: Value, k: Key): Value {
    match v case Dict(fields) => Get(fields, k) case _ => Null
  }

  function StatusText(s: Status): string {
    match s
    case Supported => "supported"
    case Partial => "partial"
    case ByProxy => "proxy"
    case InsufficientData => "insufficient_data"
    case Unsupported => "unsupported"
  }

  function NamedStatus(name: string): Status {
    if name == "ok" || name == "supported" then Supported
    else if name == "partial" then Partial
    else if name == "proxy" then ByProxy
    else if name == "unsupported" then Unsupported
    else InsufficientData
  }

  function NormalizeStatus(text: string): Status {
    NamedStatus(Lower(Strip(text)))
  }

  /** No text of a value that is not a string names a status. */
  function StatusOf(p: Payload): Status {
    match Either(Get(p, ModelStatus), Get(p, StatusKey))
    case Words(s) => NormalizeStatus(s)
    case _ => InsufficientData
  }

  function MissingOf(w: Wording, p: Payload): seq<string> {
    match Either(Get(p, MissingRequired), Get(p, MissingFields))
    case Items(items) => FieldNames(w, items)
    case _ => match Inside(Get(p, DataQuality), MissingFields)
      case Items(items) => FieldNames(w, items)
      case _ => []
  }

  function FieldNames(w: Wording, items: seq<Value>): seq<string> {
    var named := Filter((v: Value) => Truthy(v), items);
    SortedDistinct(seq(|named|, i requires 0 <= i < |named| => w.text(named[i])))
  }

  function One(b: bool, x: Proxy): seq<Proxy> {
    if b then [x] else []
  }

  function ProxiesOf(w: Wording, model: Model, p: Payload): seq<Proxy> {
    var quality := Get(p, InputQuality);
    match model
    case Dcf =>
      One(Truthy(Inside(quality, StartingCashFlowProxied)), DcfCashFlow) +
      One(Truthy(Inside(quality, CapitalStructureProxied)),
        if Get(p, ValueBasis) == Words("enterprise_value_proxy") then DcfEnterpriseValue else DcfCash)
    case ReverseDcf =>
      One(Truthy(Inside(quality, StartingMarginProxied)), ReverseDcfMargin) +
      One(Truthy(Inside(quality, CapitalStructureProxied)),
        if Get(p, TargetValueBasis) == Words("enterprise_value_proxy") then ReverseDcfEnterpriseValue else
          ReverseDcfCash)
    case ResidualIncome => One(Truthy(Inside(Get(p, DataQuality), UsedProxyBookEquity)), BookEquity)
    case CapitalAllocation =>
      var basis := Get(p, ShareholderYieldBasis);
      var how := if Truthy(Inside(basis, Method)) then w.text(Inside(basis, Method)) else "";
      if !basis.Dict? then []
      else if "average_market_cap" <= how then [AverageMarketCap]
      else if how == "latest_market_cap_proxy_shares" then [DilutedShares]
      else One(Inside(basis, MarketCapDenominator) == Null, NoMarketCap)
    case Roic => One(Get(p, CapitalCostProxy) != Null, CapitalCost)
    case _ => []
  }

  // ----- staleness -----

  function DatasetPriceDate(inp: Inputs): Option<Day> {
    if inp.dataset.Some? && inp.dataset.value.snapshot.Some? then inp.dataset.value.snapshot.value.priceDate else None
  }

  /** The date staleness is measured from; the clock is the last resort. */
  function ReferenceDate(inp: Inputs): Day {
    if inp.requestAsOf.Some? then inp.requestAsOf.value
    else if inp.dataset.Some? && inp.dataset.value.asOf.Some? then inp.dataset.value.asOf.value
    else if DatasetPriceDate(inp).Some? then DatasetPriceDate(inp).value
    else if inp.dataset.Some? && inp.dataset.value.periods != [] && inp.dataset.value.periods[0].periodEnd.Some?
      then inp.dataset.value.periods[0].periodEnd.value
    else inp.today
  }

  function PeriodsOf(inp: Inputs): seq<Period> {
    if inp.requestPeriods.Some? then inp.requestPeriods.value
    else if inp.dataset.Some? then inp.dataset.value.periods
    else []
  }

  function SnapshotOf(inp: Inputs): Option<Snapshot> {
    if inp.requestSnapshot.Some? then inp.requestSnapshot
    else if inp.dataset.Some? then inp.dataset.value.snapshot
    else None
  }

  function PriceDateOf(inp: Inputs): Option<Day> {
    if SnapshotOf(inp).Some? then SnapshotOf(inp).value.priceDate else None
  }

  function OldStatement(periods: seq<Period>, reference: Day): seq<StaleInput> {
    if periods == [] || periods[0].periodEnd.None? then []
    else
      var observed := periods[0].periodEnd.value;
      var threshold := if periods[0].annual then 430 else 190;
      if reference - observed > threshold then [OldStatements(observed, reference - observed, threshold)] else []
  }

  /** Prices and rates are stale after ten days. */
  function OldObservation(make: (Day, int) -> StaleInput, observed: Option<Day>, reference: Day): seq<StaleInput> {
    if observed.Some? && reference - observed.value > 10 then [make(observed.value, reference - observed.value)] else []
  }

  function StaleOf(w: Wording, inp: Inputs, p: Payload, reference: Day): seq<StaleInput> {
    OldStatement(PeriodsOf(inp), reference) +
    OldObservation((d, a) => OldPrice(d, a), PriceDateOf(inp), reference) +
    OldObservation((d, a) => OldRiskFreeRate(d, a),
      w.parseDate(Inside(Inside(Get(p, AssumptionProvenance), RiskFreeRate), ObservationDate)), reference)
  }

  // ----- sector -----

  function ContextOf(inp: Inputs, p: Payload): Payload {
    if inp.companyContext.Some? then inp.companyContext.value
    else match Inside(Get(p, Applicability), Classification)
      case Dict(classification) => classification
      case _ => if inp.dataset.Some? then inp.dataset.value.classification else map[]
  }

  function VerdictOf(w: Wording, inp: Inputs, p: Payload): Verdict {
    var context := ContextOf(inp, p);
    var applicability := Get(p, Applicability);
    var financial := w.financialLike(context);
    var refused := applicability.Dict? && IsSupported in applicability.fields &&
      !Truthy(applicability.fields[IsSupported]);
    match inp.model
    case Dcf => CashFlowVerdict(refused || financial, context)
    case ReverseDcf => CashFlowVerdict(refused || financial, context)
    case ResidualIncome => Verdict(Supported, if financial then BetterThanCashFlow else Suitable, context)
    case Ratios => Verdict(Supported, Suitable, context)
    case OtherModel(_) => Verdict(Supported, Suitable, context)
    case _ => if financial then Verdict(Partial, OnlyDirectional, context) else Verdict(Supported, Suitable, context)
  }

  function CashFlowVerdict(unreliable: bool, context: Payload): Verdict {
    if unreliable then Verdict(Unsupported, StructurallyUnreliable, context) else Verdict(Supported, Suitable, context)
  }

  // ----- fields used -----

  /** The candidate fields of each model. */
  function ModelFields(model: Model): seq<string> {
    match model
    case AltmanZ =>
      ["total_assets", "total_liabilities", "current_assets", "current_liabilities", "retained_earnings", "revenue",
       "operating_income", "shares_outstanding", "weighted_average_diluted_shares", "market_snapshot.latest_price"]
    case CapitalAllocation =>
      ["dividends", "share_buybacks", "debt_changes", "stock_based_compensation", "weighted_average_diluted_shares",
       "shares_outstanding", "eps"]
    case Dcf =>
      ["free_cash_flow", "operating_cash_flow", "capex", "cash_and_short_term_investments",
       "cash_and_cash_equivalents", "short_term_investments", "current_debt", "long_term_debt",
       "weighted_average_diluted_shares", "shares_outstanding"]
    case Dupont =>
      ["net_income", "revenue", "total_assets", "total_liabilities"]
    case Piotroski =>
      ["net_income", "total_assets", "current_assets", "current_liabilities", "operating_cash_flow",
       "shares_outstanding", "long_term_debt", "gross_profit", "revenue"]
    case Ratios =>
      ["gross_profit", "revenue", "operating_income", "net_income", "operating_cash_flow", "free_cash_flow",
       "total_assets", "total_liabilities", "interest_expense", "capex", "stock_based_compensation", "current_debt",
       "long_term_debt", "cash_and_short_term_investments", "dividends"]
    case ResidualIncome =>
      ["total_assets", "total_liabilities", "stockholders_equity", "net_income", "net_income_loss",
       "shares_outstanding", "weighted_average_diluted_shares", "market_snapshot.latest_price"]
    case ReverseDcf =>
      ["revenue", "operating_income", "free_cash_flow", "operating_cash_flow", "weighted_average_diluted_shares",
       "shares_outstanding", "market_snapshot.latest_price"]
    case Roic =>
      ["operating_income", "income_tax_expense", "stockholders_equity", "current_debt", "long_term_debt",
       "cash_and_short_term_investments", "capex", "operating_cash_flow"]
    case OtherModel(_) => []
  }

  const MARKET_PREFIX := "market_snapshot."

  /** A DCF shows the parts of a proxy only when the proxy was used. */
  predicate Unproxied(model: Model, quality: Value, field: string) {
    model == Dcf &&
    ((field in {"operating_cash_flow", "capex"} && !Truthy(Inside(quality, StartingCashFlowProxied))) ||
     (field in {"cash_and_cash_equivalents", "short_term_investments"} &&
       !Truthy(Inside(quality, CapitalStructureProxied))))
  }

  predicate Uses(inp: Inputs, quality: Value, field: string) {
    if MARKET_PREFIX <= field then SnapshotOf(inp).Some? && field[|MARKET_PREFIX|..] in SnapshotOf(inp).value.known
    else !Unproxied(inp.model, quality, field) && exists period :: period in PeriodsOf(inp) && field in period.known
  }

  function FieldsOf(inp: Inputs, quality: Value): seq<string> {
    SortedDistinct(Filter((field: string) => Uses(inp, quality, field), ModelFields(inp.model)))
  }

  /** The loop over the candidates, with its two `continue`s. */
  method CollectFields(inp: Inputs, quality: Value) returns (fields: seq<string>)
    ensures fields == FieldsOf(inp, quality)
  {
    hide ModelFields, SortedDistinct, Unproxied, PeriodsOf, SnapshotOf, Filter;
    var candidates := ModelFields(inp.model);
    var periods := PeriodsOf(inp);
    var found: seq<string> := [];
    NothingFiltered((field: string) => Uses(inp, quality, field), candidates);
    for i := 0 to |candidates|
      invariant found == Filter((field: string) => Uses(inp, quality, field), candidates[..i])
    {
      var candidate := candidates[i];
      FilterSnoc((field: string) => Uses(inp, quality, field), candidates, i);
      if MARKET_PREFIX <= candidate {
        var snapshot := SnapshotOf(inp);
        if snapshot.Some? && candidate[|MARKET_PREFIX|..] in snapshot.value.known {
          found := found + [candidate];
        }
        continue;
      }
      if Unproxied(inp.model, quality, candidate) {
        continue;
      }
      if exists period :: period in periods && candidate in period.known {
        found := found + [candidate];
      }
    }
    assert candidates[..|candidates|] == candidates;
    fields := SortedDistinct(found);
  }

  lemma NothingFiltered(p: string -> bool, candidates: seq<string>)
    ensures Filter(p, candidates[..0]) == []
  {
  }

  /** The fields shown are exactly the model's candidates that are used, in order and without repeats. */
  lemma FieldsMeaning(inp: Inputs, quality: Value, field: string)
    ensures field in FieldsOf(inp, quality) <==> field in ModelFields(inp.model) && Uses(inp, quality, field)
    ensures StrictlySorted(FieldsOf(inp, quality))
  {
    hide ModelFields, SortedDistinct, Uses;
    SortedDistinctFacts(Filter((x: string) => Uses(inp, quality, x), ModelFields(inp.model)));
  }

  // ----- what is written -----

  /** Everything standardising derives from a payload before it writes. */
  datatype Derived = Derived(
    status: Status, missing: seq<string>, proxies: seq<Proxy>, stale: seq<StaleInput>, verdict: Verdict,
      fields: seq<string>) {

    function Against(): Evidence {
      Evidence(missing, proxies != [], stale != [], verdict.status)
    }
  }

  function Derive(w: Wording, inp: Inputs, p: Payload): Derived {
    Derived(StatusOf(p), MissingOf(w, p), ProxiesOf(w, inp.model, p), StaleOf(w, inp, p, ReferenceDate(inp)),
            VerdictOf(w, inp, p), FieldsOf(inp, Get(p, InputQuality)))
  }

  /** The model's standing warnings, and one for each thing that speaks against this result. */
  function Warnings(w: Wording, model: Model, d: Derived): seq<string> {
    w.baseline(model) +
    (if d.missing != [] then [w.misleading(FieldsIncomplete(d.missing))] else []) +
    (if d.proxies != [] then [w.misleading(Approximated)] else []) +
    (if d.stale != [] then [w.misleading(InputsLag)] else []) +
    (if d.verdict.status == Partial || d.verdict.status == Unsupported
     then [w.misleading(SectorSays(d.verdict.note))] else []) +
    (if d.status == InsufficientData then [w.misleading(NotDecisionGrade)] else [])
  }

  function MisleadingOf(w: Wording, model: Model, d: Derived): seq<string> {
    Deduped(Warnings(w, model, d))
  }

  function Texts(lines: seq<string>): Value {
    Items(seq(|lines|, i requires 0 <= i < |lines| => Words(lines[i])))
  }

  function ProxyValue(w: Wording, d: Derived): Value {
    Items([Truth(d.proxies != []), Items(seq(|d.proxies|, i requires 0 <= i < |d.proxies| => w.proxy(d.proxies[i])))])
  }

  function StaleValue(w: Wording, d: Derived): Value {
    Items(seq(|d.stale|, i requires 0 <= i < |d.stale| => w.stale(d.stale[i])))
  }

  function ReasonTexts(w: Wording, d: Derived): seq<string> {
    Deduped(Say(w.reason, Reasons(d.status, d.Against())))
  }

  function SummaryText(w: Wording, score: int, reasons: seq<string>): string {
    w.summary(LabelOf(score), score, if reasons == [] then "No confidence rationale available." else reasons[0])
  }

  function FlagTexts(w: Wording, flags: seq<Flag>): seq<string> {
    seq(|flags|, i requires 0 <= i < |flags| => w.flag(flags[i]))
  }

  /** The version is filled in only where the result has none. */
  function Versioned(inp: Inputs, p: Payload): Payload {
    if inp.version.Some? &&
      !Truthy(Get(p, CalculationVersion)) then p[CalculationVersion := Words(inp.version.value)] else p
  }

  /** The value standardising writes under a key. */
  function DerivedValue(w: Wording, model: Model, d: Derived, p: Payload, k: Key): Value {
    match k
    case StatusKey => Words(StatusText(d.status))
    case ModelStatus => Words(StatusText(d.status))
    case ConfidenceScore => Number(Score(d.status, d.Against()) as real / 100.0)
    case ConfidenceReasons => Texts(ReasonTexts(w, d))
    case FieldsUsed => Texts(d.fields)
    case ProxyUsage => ProxyValue(w, d)
    case StaleInputs => StaleValue(w, d)
    case SectorSuitability => w.verdict(d.verdict)
    case MisleadingReasons => Texts(MisleadingOf(w, model, d))
    case ConfidenceSummary => Words(SummaryText(w, Score(d.status, d.Against()), ReasonTexts(w, d)))
    case StatusFlags => Texts(FlagTexts(w, Flags(d.status, d.Against())))
    case Explanation => if Explanation in p then p[Explanation] else Words(w.explanation(d.status))
    case _ => Null
  }

  /** The value under a key after standardising, formula ids apart. */
  function StandardValue(w: Wording, inp: Inputs, p: Payload, k: Key): Option<Value> {
    if k in WRITTEN then Some(DerivedValue(w, inp.model, Derive(w, inp, Versioned(inp, p)), p,
      k)) else At(Versioned(inp, p), k)
  }

  function At(p: Payload, k: Key): Option<Value> {
    if k in p then Some(p[k]) else None
  }

  const WRITTEN: set<Key> :=
    {StatusKey, ModelStatus, ConfidenceScore, ConfidenceReasons, FieldsUsed, ProxyUsage, StaleInputs, SectorSuitability,
     MisleadingReasons, ConfidenceSummary, StatusFlags, Explanation}

  /** The payload before its formula ids are added. */
  function Written(w: Wording, inp: Inputs, p: Payload): Payload {
    Versioned(inp, p) + map k | k in WRITTEN :: DerivedValue(w, inp.model, Derive(w, inp, Versioned(inp, p)), p, k)
  }

  /** `standardize_model_result`. */
  function Standardized(w: Wording, inp: Inputs, p: Payload): Payload {
    var written := Written(w, inp, p);
    written[FormulaIds := w.formulas(inp.model, written)]
  }

  lemma SameAt(p: Payload, q: Payload)
    requires forall k :: At(p, k) == At(q, k)
    ensures p == q
  {
    forall k ensures k in p <==> k in q ensures k in p ==> p[k] == q[k] {
      assert At(p, k) == At(q, k);
    }
  }

  lemma WrittenAt(w: Wording, inp: Inputs, p: Payload, k: Key)
    ensures At(Written(w, inp, p), k) == StandardValue(w, inp, p, k)
  {
    hide Derive, Versioned, DerivedValue;
  }

  /** Exactly the derived values under some keys have been written. */
  ghost predicate Holds(w: Wording, inp: Inputs, p: Payload, payload: Payload, keys: set<Key>) {
    forall k :: At(payload, k) == if k in keys then StandardValue(w, inp, p, k) else At(Versioned(inp, p), k)
  }

  lemma WriteStep(w: Wording, inp: Inputs, p: Payload, payload: Payload, keys: set<Key>, k: Key, v: Value)
    requires Holds(w, inp, p, payload, keys) && StandardValue(w, inp, p, k) == Some(v)
    ensures Holds(w, inp, p, payload[k := v], keys + {k})
  {
    hide StandardValue, Versioned;
  }

  lemma NothingWritten(w: Wording, inp: Inputs, p: Payload)
    ensures Holds(w, inp, p, Versioned(inp, p), {})
  {
    hide StandardValue, Versioned;
  }

  lemma ExplanationSoFar(w: Wording, inp: Inputs, p: Payload, payload: Payload, keys: set<Key>)
    requires Holds(w, inp, p, payload, keys) && Explanation !in keys
    ensures Explanation in payload <==> Explanation in p
    ensures Explanation in p ==> payload[Explanation] == p[Explanation]
  {
    hide StandardValue;
    assert At(payload, Explanation) == At(Versioned(inp, p), Explanation);
  }

  lemma Unwritten(w: Wording, inp: Inputs, p: Payload, k: Key)
    requires k !in WRITTEN
    ensures StandardValue(w, inp, p, k) == At(Versioned(inp, p), k)
  {
  }

  lemma AllWritten(w: Wording, inp: Inputs, p: Payload, payload: Payload)
    requires Holds(w, inp, p, payload, WRITTEN)
    ensures payload == Written(w, inp, p)
  {
    hide Written, StandardValue, At;
    forall k | k !in WRITTEN ensures At(payload, k) == StandardValue(w, inp, p, k) { Unwritten(w, inp, p, k); }
    forall k ensures At(payload, k) == At(Written(w, inp, p), k) { WrittenAt(w, inp, p, k); }
    SameAt(payload, Written(w, inp, p));
  }

  lemma FieldsDerived(w: Wording, inp: Inputs, p: Payload)
    ensures Derive(w, inp, p).fields == FieldsOf(inp, Get(p, InputQuality))
  {
  }

  const FIRST_KEYS: set<Key> := {StatusKey, ModelStatus, ConfidenceScore, ConfidenceReasons, FieldsUsed, ProxyUsage}

  /** The first six writes. */
  method WriteStatus(
    w: Wording, inp: Inputs, ghost p: Payload, d: Derived, fields: seq<string>, score: int, reasons: seq<string>,
      start: Payload)
    returns (payload: Payload)
    requires fields == d.fields
    requires d == Derive(w, inp, Versioned(inp, p)) && Holds(w, inp, p, start, {})
    requires score == Score(d.status, d.Against()) && reasons == ReasonTexts(w, d)
    ensures Holds(w, inp, p, payload, FIRST_KEYS)
  {
    hide Derive, Versioned, MisleadingOf, FlagTexts, ProxyValue, StaleValue, Texts, StatusText, Written, Score,
      Reasons, Say,
      ReasonTexts, SummaryText, Holds, At, Flags;
    payload := start;
    ghost var done: set<Key> := {};
    WriteStep(w, inp, p, payload, done, StatusKey, Words(StatusText(d.status)));
    payload, done := payload[StatusKey := Words(StatusText(d.status))], done + {StatusKey};
    WriteStep(w, inp, p, payload, done, ModelStatus, Words(StatusText(d.status)));
    payload, done := payload[ModelStatus := Words(StatusText(d.status))], done + {ModelStatus};
    WriteStep(w, inp, p, payload, done, ConfidenceScore, Number(score as real / 100.0));
    payload, done := payload[ConfidenceScore := Number(score as real / 100.0)], done + {ConfidenceScore};
    WriteStep(w, inp, p, payload, done, ConfidenceReasons, Texts(reasons));
    payload, done := payload[ConfidenceReasons := Texts(reasons)], done + {ConfidenceReasons};
    WriteStep(w, inp, p, payload, done, FieldsUsed, Texts(fields));
    payload, done := payload[FieldsUsed := Texts(fields)], done + {FieldsUsed};
    WriteStep(w, inp, p, payload, done, ProxyUsage, ProxyValue(w, d));
    payload, done := payload[ProxyUsage := ProxyValue(w, d)], done + {ProxyUsage};
    assert done == FIRST_KEYS;
  }

  /** The other six; an explanation already there is kept. */
  method WriteWarnings(
      w: Wording, inp: Inputs, ghost p: Payload, d: Derived, score: int, reasons: seq<string>, start: Payload)
    returns (payload: Payload)
    requires d == Derive(w, inp, Versioned(inp, p)) && Holds(w, inp, p, start, FIRST_KEYS)
    requires score == Score(d.status, d.Against()) && reasons == ReasonTexts(w, d)
    ensures Holds(w, inp, p, payload, WRITTEN)
  {
    hide Derive, Versioned, MisleadingOf, FlagTexts, ProxyValue, StaleValue, Texts, StatusText, Written, Score,
      Reasons, Say,
      ReasonTexts, SummaryText, Holds, At, Flags;
    payload := start;
    ghost var done: set<Key> := FIRST_KEYS;
    WriteStep(w, inp, p, payload, done, StaleInputs, StaleValue(w, d));
    payload, done := payload[StaleInputs := StaleValue(w, d)], done + {StaleInputs};
    WriteStep(w, inp, p, payload, done, SectorSuitability, w.verdict(d.verdict));
    payload, done := payload[SectorSuitability := w.verdict(d.verdict)], done + {SectorSuitability};
    WriteStep(w, inp, p, payload, done, MisleadingReasons, Texts(MisleadingOf(w, inp.model, d)));
    payload, done := payload[MisleadingReasons := Texts(MisleadingOf(w, inp.model, d))], done + {MisleadingReasons};
    WriteStep(w, inp, p, payload, done, ConfidenceSummary, Words(SummaryText(w, score, reasons)));
    payload, done := payload[ConfidenceSummary := Words(SummaryText(w, score, reasons))], done + {ConfidenceSummary};
    WriteStep(w, inp, p, payload, done, StatusFlags, Texts(FlagTexts(w, Flags(d.status, d.Against()))));
    payload, done := payload[StatusFlags := Texts(FlagTexts(w, Flags(d.status, d.Against())))], done + {StatusFlags};
    ExplanationSoFar(w, inp, p, payload, done);
    var explanation := if Explanation in payload then payload[Explanation] else Words(w.explanation(d.status));
    WriteStep(w, inp, p, payload, done, Explanation, explanation);
    payload, done := payload[Explanation := explanation], done + {Explanation};
    assert done == WRITTEN;
  }

  /** `standardize_model_result`: write the derived keys one after the other. */
  method Standardize(w: Wording, inp: Inputs, p: Payload) returns (payload: Payload)
    ensures payload == Standardized(w, inp, p)
  {
    hide Derive, Versioned, Written, Score, Reasons, Say, Holds;
    payload := Versioned(inp, p);
    var d := Derive(w, inp, payload);
    var score, reasons := ConfidenceProfile(w.reason, d.status, d.Against());
    NothingWritten(w, inp, p);
    var fields := CollectFields(inp, Get(payload, InputQuality));
    FieldsDerived(w, inp, payload);
    payload := WriteStatus(w, inp, p, d, fields, score, reasons, payload);
    payload := WriteWarnings(w, inp, p, d, score, reasons, payload);
    AllWritten(w, inp, p, payload);
    payload := payload[FormulaIds := w.formulas(inp.model, payload)];
  }

  // ----- idempotence -----

  lemma NamedText(s: Status)
    ensures NamedStatus(StatusText(s)) == s
  {
  }

  /** A status text is its own normal form. */
  lemma StatusTextIsNormal(s: Status)
    ensures NormalizeStatus(StatusText(s)) == s
  {
    hide NamedStatus;
    var text := StatusText(s);
    assert Trimmed(text) && forall i :: 0 <= i < |text| ==> !('A' <= text[i] <= 'Z');
    assert Lower(Strip(text)) == text by {
      hide StatusText;
      StripTrims(text);
      LowerKeepsLower(text);
    }
    NamedText(s);
  }

  /** The keys whose values decide what is derived, the status apart. */
  predicate IsRead(k: Key) {
    k in {MissingRequired, MissingFields, DataQuality, InputQuality, ValueBasis, TargetValueBasis,
          ShareholderYieldBasis, CapitalCostProxy, AssumptionProvenance, Applicability}
  }

  /** Nothing else of the payload matters. */
  lemma DeriveReads(w: Wording, inp: Inputs, p: Payload, q: Payload)
    requires forall k :: IsRead(k) ==> Get(p, k) == Get(q, k)
    requires StatusOf(p) == StatusOf(q)
    ensures Derive(w, inp, p) == Derive(w, inp, q)
  {
    hide Get, StatusOf, MissingOf, ProxiesOf, StaleOf, VerdictOf;
    MissingRead(w, p, q);
    ProxiesRead(w, inp.model, p, q);
    StaleRead(w, inp, p, q, ReferenceDate(inp));
    VerdictRead(w, inp, p, q);
    assert IsRead(InputQuality);
  }

  lemma MissingRead(w: Wording, p: Payload, q: Payload)
    requires forall k :: IsRead(k) ==> Get(p, k) == Get(q, k)
    ensures MissingOf(w, p) == MissingOf(w, q)
  {
    hide Get, FieldNames;
    assert IsRead(MissingRequired) && IsRead(MissingFields) && IsRead(DataQuality);
  }

  lemma StaleRead(w: Wording, inp: Inputs, p: Payload, q: Payload, reference: Day)
    requires forall k :: IsRead(k) ==> Get(p, k) == Get(q, k)
    ensures StaleOf(w, inp, p, reference) == StaleOf(w, inp, q, reference)
  {
    hide Get, Inside, OldStatement, OldObservation, PriceDateOf, PeriodsOf;
    assert IsRead(AssumptionProvenance);
  }

  lemma VerdictRead(w: Wording, inp: Inputs, p: Payload, q: Payload)
    requires forall k :: IsRead(k) ==> Get(p, k) == Get(q, k)
    ensures VerdictOf(w, inp, p) == VerdictOf(w, inp, q)
  {
    hide Get, Inside;
    assert IsRead(Applicability);
  }

  lemma ProxiesRead(w: Wording, model: Model, p: Payload, q: Payload)
    requires forall k :: IsRead(k) ==> Get(p, k) == Get(q, k)
    ensures ProxiesOf(w, model, p) == ProxiesOf(w, model, q)
  {
    hide Get, One, Truthy, Inside;
    assert IsRead(InputQuality) && IsRead(ValueBasis) && IsRead(TargetValueBasis) && IsRead(DataQuality);
    assert IsRead(ShareholderYieldBasis) && IsRead(CapitalCostProxy);
  }

  /** Standardising leaves every key it does not write, and the version where there was one. */
  lemma KeepsWhatItDoesNotWrite(w: Wording, inp: Inputs, p: Payload, k: Key)
    requires k !in WRITTEN && k != FormulaIds && (k != CalculationVersion || Truthy(Get(p, k)))
    ensures At(Standardized(w, inp, p), k) == At(p, k)
  {
    hide StandardValue;
  }

  lemma StatusSurvives(w: Wording, inp: Inputs, p: Payload)
    ensures StatusOf(Standardized(w, inp, p)) == StatusOf(Versioned(inp, p))
  {
    hide NormalizeStatus, StatusText, Written, Versioned, StatusOf;
    WrittenAt(w, inp, p, ModelStatus);
    var q := Standardized(w, inp, p);
    var s := StatusOf(Versioned(inp, p));
    assert At(q, ModelStatus) == Some(Words(StatusText(s)));
    StatusTextIsNormal(s);
    StatusByModelStatus(q, s);
  }

  lemma StatusByModelStatus(q: Payload, s: Status)
    requires At(q, ModelStatus) == Some(Words(StatusText(s)))
    ensures StatusOf(q) == s
  {
    hide NormalizeStatus;
    StatusTextIsNormal(s);
    assert StatusText(s) != "";
  }

  /** What is derived from a standardised result is what was derived the first time. */
  lemma DerivedTwice(w: Wording, inp: Inputs, p: Payload)
    ensures Derive(w, inp, Standardized(w, inp, p)) == Derive(w, inp, Versioned(inp, p))
  {
    hide Derive, Standardized, Versioned, StatusOf;
    StatusSurvives(w, inp, p);
    var q := Standardized(w, inp, p);
    forall k | IsRead(k) ensures Get(q, k) == Get(Versioned(inp, p), k) {
      KeepsWhatItDoesNotWrite(w, inp, p, k);
      VersionedGet(inp, p, k);
    }
    DeriveReads(w, inp, q, Versioned(inp, p));
  }

  lemma VersionedGet(inp: Inputs, p: Payload, k: Key)
    ensures k != CalculationVersion ==> At(Versioned(inp, p), k) == At(p, k)
    ensures Get(p, k) == match At(p, k) case Some(v) => v case None => Null
  {
  }

  lemma VersionedTwice(w: Wording, inp: Inputs, p: Payload)
    ensures Versioned(inp, Standardized(w, inp, p)) == Standardized(w, inp, p)
  {
    hide Versioned, Derive, Written, StandardValue, At;
    WrittenAt(w, inp, p, CalculationVersion);
    IdsLeaveVersion(w, inp, p);
    VersionStands(inp, p, Standardized(w, inp, p));
  }

  lemma IdsLeaveVersion(w: Wording, inp: Inputs, p: Payload)
    ensures At(Standardized(w, inp, p), CalculationVersion) == At(Written(w, inp, p), CalculationVersion)
    ensures StandardValue(w, inp, p, CalculationVersion) == At(Versioned(inp, p), CalculationVersion)
  {
    hide Versioned, Derive, Written;
  }

  lemma VersionStands(inp: Inputs, p: Payload, q: Payload)
    requires At(q, CalculationVersion) == At(Versioned(inp, p), CalculationVersion)
    ensures Versioned(inp, q) == q
  {
    if inp.version.Some? && !Truthy(Get(q, CalculationVersion)) {
      assert q[CalculationVersion] == Words(inp.version.value);
      assert q[CalculationVersion := q[CalculationVersion]] == q;
    }
  }

  function WithIds(p: Payload, ids: Value): Payload {
    p[FormulaIds := ids]
  }

  /** The formula ids of a result do not depend on the ids it already carries. */
  ghost predicate IgnoresIds(w: Wording, model: Model) {
    forall p, ids :: w.formulas(model, WithIds(p, ids)) == w.formulas(model, p)
  }

  /** Standardising a standardised result changes nothing but, possibly, its formula ids; nothing at all when the ids
      do not depend on the ids already there. */
  lemma StandardizingIsIdempotent(w: Wording, inp: Inputs, p: Payload)
    ensures var q := Standardized(w, inp, p); Standardized(w, inp, q) == WithIds(q, w.formulas(inp.model, q))
    ensures IgnoresIds(w, inp.model) ==> Standardized(w, inp, Standardized(w, inp, p)) == Standardized(w, inp, p)
  {
    var q := Standardized(w, inp, p);
    WrittenTwice(w, inp, p);
    hide Written;
    if IgnoresIds(w, inp.model) {
      assert q == WithIds(Written(w, inp, p), w.formulas(inp.model, Written(w, inp, p)));
      assert WithIds(q, q[FormulaIds]) == q;
    }
  }

  lemma WrittenTwice(w: Wording, inp: Inputs, p: Payload)
    ensures Written(w, inp, Standardized(w, inp, p)) == Standardized(w, inp, p)
  {
    hide Derive, Versioned, Written, Standardized, StandardValue;
    var q := Standardized(w, inp, p);
    DerivedTwice(w, inp, p);
    VersionedTwice(w, inp, p);
    forall k ensures At(Written(w, inp, q), k) == At(q, k) {
      WrittenAt(w, inp, q, k);
      ValueTwice(w, inp, p, q, k);
    }
    SameAt(Written(w, inp, q), q);
  }

  lemma ValueTwice(w: Wording, inp: Inputs, p: Payload, q: Payload, k: Key)
    requires q == Standardized(w, inp, p) && Versioned(inp, q) == q
    requires Derive(w, inp, q) == Derive(w, inp, Versioned(inp, p))
    ensures StandardValue(w, inp, q, k) == At(q, k)
  {
    hide Derive, Versioned, Written, MisleadingOf, ReasonTexts, FlagTexts, SummaryText, ProxyValue, StaleValue, Texts,
      StatusText, Score;
    if k != FormulaIds {
      WrittenAt(w, inp, p, k);
    }
  }

  // ----- time -----

  /** Whether a date other than the clock's decides staleness. */
  predicate Dated(inp: Inputs) {
    inp.requestAsOf.Some? ||
    (inp.dataset.Some? &&
      (inp.dataset.value.asOf.Some? || DatasetPriceDate(inp).Some? ||
        (inp.dataset.value.periods != [] && inp.dataset.value.periods[0].periodEnd.Some?)))
  }

  /** The clock matters exactly when nothing dates the inputs; a dataset with statements always does. */
  lemma ClockMattersExactlyWhen(inp: Inputs)
    ensures (forall t: Day :: ReferenceDate(inp.(today := t)) == ReferenceDate(inp)) <==> Dated(inp)
  {
    if !Dated(inp) {
      assert ReferenceDate(inp.(today := inp.today + 1)) == inp.today + 1;
    }
  }

  lemma StaleGrows(w: Wording, inp: Inputs, p: Payload, early: Day, late: Day)
    requires early <= late && StaleOf(w, inp, p, early) != []
    ensures StaleOf(w, inp, p, late) != []
  {
    hide PeriodsOf, PriceDateOf, Inside;
  }

  function ScoreOf(w: Wording, inp: Inputs, p: Payload): int {
    Score(StatusOf(p), Derive(w, inp, p).Against())
  }

  lemma FieldNamesDistinct(w: Wording, items: seq<Value>)
    ensures Distinct(FieldNames(w, items))
  {
    hide SortedDistinct, Filter;
    var named := Filter((v: Value) => Truthy(v), items);
    SortedDistinctFacts(seq(|named|, i requires 0 <= i < |named| => w.text(named[i])));
  }

  /** The same result is never more trusted when it is looked at later, by the clock or by the request's own date. */
  lemma ConfidenceNeverRisesWithTime(w: Wording, inp: Inputs, later: Inputs, p: Payload)
    requires later == inp.(today := later.today, requestAsOf := later.requestAsOf)
    requires ReferenceDate(inp) <= ReferenceDate(later)
    ensures ScoreOf(w, later, p) <= ScoreOf(w, inp, p)
    ensures Rank(LabelOf(ScoreOf(w, later, p))) <= Rank(LabelOf(ScoreOf(w, inp, p)))
  {
    hide StatusOf, ReferenceDate, Score, Rank, LabelOf, Derive, Worse;
    EvidenceWorsens(w, inp, later, p);
    ConfidenceIsAntitone(StatusOf(p), Derive(w, inp, p).Against(), Derive(w, later, p).Against());
  }

  lemma EvidenceWorsens(w: Wording, inp: Inputs, later: Inputs, p: Payload)
    requires later == inp.(today := later.today, requestAsOf := later.requestAsOf)
    requires ReferenceDate(inp) <= ReferenceDate(later)
    ensures Worse(Derive(w, inp, p).Against(), Derive(w, later, p).Against())
  {
    hide StatusOf, ReferenceDate, MissingOf, ProxiesOf, StaleOf, VerdictOf;
    MissingDistinct(w, p);
    SameButForTime(w, inp, later, p, ReferenceDate(later));
    if StaleOf(w, inp, p, ReferenceDate(inp)) != [] {
      StaleGrows(w, inp, p, ReferenceDate(inp), ReferenceDate(later));
    }
  }

  lemma SameButForTime(w: Wording, inp: Inputs, later: Inputs, p: Payload, reference: Day)
    requires later == inp.(today := later.today, requestAsOf := later.requestAsOf)
    ensures StaleOf(w, later, p, reference) == StaleOf(w, inp, p, reference)
    ensures VerdictOf(w, later, p) == VerdictOf(w, inp, p)
  {
    hide Get, Inside, OldStatement, OldObservation, Truthy;
  }

  lemma MissingDistinct(w: Wording, p: Payload)
    ensures Distinct(MissingOf(w, p))
  {
    hide FieldNames;
    match Either(Get(p, MissingRequired), Get(p, MissingFields))
    case Items(items) => FieldNamesDistinct(w, items);
    case _ => match Inside(Get(p, DataQuality), MissingFields)
      case Items(items) => FieldNamesDistinct(w, items);
      case _ =>
  }
}
