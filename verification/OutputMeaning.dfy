/**
 What a standardised result says, read off its inputs: when a value counts, which date staleness is measured from, which
 inputs are stale, which proxies were used, what the sector says, and the score and warnings that follow.
 */
module OutputMeaning {
  import opened Confidence
  import opened Ordering
  import opened OutputNormalization
  import opened Text
  import opened Wrappers

  /** Only nothing, false, zero and empty values do not count. */
  lemma TruthyMeaning(v: Value)
    ensures !Truthy(v) <==>
            v in {Null, Truth(false), Number(0.0), Words(""), Items([]), Dict(map[])}
  {
  }

  // ----- status and missing fields -----

  /** The status is named by `model_status` when that counts, else by `status`; an unknown name is insufficient data. */
  lemma StatusMeaning(p: Payload)
    ensures var named := if Truthy(Get(p, ModelStatus)) then Get(p, ModelStatus) else Get(p, StatusKey);
            var name := if named.Words? then Lower(Strip(named.s)) else "";
            && (StatusOf(p) == Supported <==> name in {"ok", "supported"})
            && (StatusOf(p) == Partial <==> name == "partial")
            && (StatusOf(p) == ByProxy <==> name == "proxy")
            && (StatusOf(p) == Unsupported <==> name == "unsupported")
  {
    hide Truthy, Get, Lower, Strip;
  }

  /** The list of missing fields: the required ones when they count, else the others, else those of the data quality. */
  function MissingList(p: Payload): seq<Value> {
    var named := if Truthy(Get(p, MissingRequired)) then Get(p, MissingRequired) else Get(p, MissingFields);
    var nested := Inside(Get(p, DataQuality), MissingFields);
    if named.Items? then named.items else if nested.Items? then nested.items else []
  }

  /** The missing fields are the texts of those in the list that count, in order and without repeats. */
  lemma MissingMeaning(w: Wording, p: Payload, text: string)
    ensures text in MissingOf(w, p) <==> exists v :: v in MissingList(p) && Truthy(v) && w.text(v) == text
    ensures StrictlySorted(MissingOf(w, p))
  {
    hide Truthy, Get, Inside, FieldNames, LexLe;
    FieldNamesMeaning(w, MissingList(p), text);
    FieldNamesMeaning(w, [], text);
    EmptyIsNamed(w);
  }

  lemma EmptyIsNamed(w: Wording)
    ensures FieldNames(w, []) == []
  {
  }

  lemma FieldNamesMeaning(w: Wording, items: seq<Value>, text: string)
    ensures text in FieldNames(w, items) <==> exists v :: v in items && Truthy(v) && w.text(v) == text
    ensures StrictlySorted(FieldNames(w, items))
  {
    hide Truthy, SortedDistinct, LexLe, Filter;
    var named := Filter((v: Value) => Truthy(v), items);
    var texts := seq(|named|, i requires 0 <= i < |named| => w.text(named[i]));
    SortedDistinctFacts(texts);
    if v :| v in items && Truthy(v) && w.text(v) == text {
      assert v in named;
      var i :| 0 <= i < |named| && named[i] == v;
      assert texts[i] == text;
    }
    if text in texts {
      var i :| 0 <= i < |texts| && texts[i] == text;
      assert named[i] in named;
    }
  }

  // ----- dates -----

  /** The dates a result may be measured from, the preferred first. */
  function DatesOf(inp: Inputs): seq<Option<Day>> {
    [inp.requestAsOf,
     if inp.dataset.Some? then inp.dataset.value.asOf else None,
     if inp.dataset.Some? && inp.dataset.value.snapshot.Some? then inp.dataset.value.snapshot.value.priceDate else None,
     if inp.dataset.Some? && inp.dataset.value.periods != [] then inp.dataset.value.periods[0].periodEnd else None]
  }

  /** The first value there is. */
  function FirstOf(dates: seq<Option<Day>>): Option<Day> {
    if dates == [] then None else if dates[0].Some? then dates[0] else FirstOf(dates[1..])
  }

  /** Staleness is measured from the first of these dates there is, and from the clock when there is none. */
  lemma ReferenceDateMeaning(inp: Inputs)
    ensures ReferenceDate(inp) == FirstOf(DatesOf(inp)).GetOr(inp.today)
  {
    var d := DatesOf(inp);
    FirstOfFour(d[0], d[1], d[2], d[3]);
    assert d == [d[0], d[1], d[2], d[3]];
  }

  lemma FirstOfFour(a: Option<Day>, b: Option<Day>, c: Option<Day>, d: Option<Day>)
    ensures FirstOf([a, b, c, d]) == if a.Some? then a else if b.Some? then b else if c.Some? then c else d
  {
    assert [a, b, c, d][1..] == [b, c, d] && [b, c, d][1..] == [c, d] && [c, d][1..] == [d] && [d][1..] == [];
    assert FirstOf([d]) == d;
    assert FirstOf([c, d]) == if c.Some? then c else d;
  }

  /** Periods and the snapshot come from the request when it has them, else from the dataset. */
  lemma RequestComesFirst(inp: Inputs)
    ensures inp.requestPeriods.Some? ==> PeriodsOf(inp) == inp.requestPeriods.value
    ensures inp.requestPeriods.None? && inp.dataset.Some? ==> PeriodsOf(inp) == inp.dataset.value.periods
    ensures inp.requestPeriods.None? && inp.dataset.None? ==> PeriodsOf(inp) == []
    ensures inp.requestSnapshot.Some? ==> SnapshotOf(inp) == inp.requestSnapshot
    ensures inp.requestSnapshot.None? && inp.dataset.Some? ==> SnapshotOf(inp) == inp.dataset.value.snapshot
    ensures inp.requestSnapshot.None? && inp.dataset.None? ==> SnapshotOf(inp) == None
  {
  }

  /** The observation date of the risk-free rate a result says it used. */
  function RateDateOf(w: Wording, p: Payload): Option<Day> {
    w.parseDate(Inside(Inside(Get(p, AssumptionProvenance), RiskFreeRate), ObservationDate))
  }

  /** Observed on day `d`, `age` days before the reference, and that is more than the `limit`. */
  predicate TooOld(observed: Option<Day>, d: Day, age: int, reference: Day, limit: int) {
    observed == Some(d) && d + age == reference && age > limit
  }

  /** The stale inputs are exactly the latest statement past 430 days, or 190 when it is not annual, and the price and
      the rate past ten days, each with its date and age. */
  lemma StaleMeaning(w: Wording, inp: Inputs, p: Payload, reference: Day, x: StaleInput)
    ensures x in StaleOf(w, inp, p, reference) <==>
            match x
            case OldStatements(d, age, limit) =>
              PeriodsOf(inp) != [] && limit == (if PeriodsOf(inp)[0].annual then 430 else 190) &&
              TooOld(PeriodsOf(inp)[0].periodEnd, d, age, reference, limit)
            case OldPrice(d, age) =>
              SnapshotOf(inp).Some? && TooOld(SnapshotOf(inp).value.priceDate, d, age, reference, 10)
            case OldRiskFreeRate(d, age) => TooOld(RateDateOf(w, p), d, age, reference, 10)
  {
    hide PeriodsOf, SnapshotOf, Inside, Get;
  }

  // ----- proxies and sector -----

  function ShareholderMethod(w: Wording, p: Payload): string {
    var how := Inside(Get(p, ShareholderYieldBasis), Method);
    if Truthy(how) then w.text(how) else ""
  }

  /** When each proxy is reported. */
  predicate UsesProxy(w: Wording, model: Model, p: Payload, x: Proxy) {
    var quality := Get(p, InputQuality);
    var bridge := Truthy(Inside(quality, CapitalStructureProxied));
    var how := ShareholderMethod(w, p);
    match x
    case DcfCashFlow => model == Dcf && Truthy(Inside(quality, StartingCashFlowProxied))
    case DcfEnterpriseValue => model == Dcf && bridge && Get(p, ValueBasis) == Words("enterprise_value_proxy")
    case DcfCash => model == Dcf && bridge && Get(p, ValueBasis) != Words("enterprise_value_proxy")
    case ReverseDcfMargin => model == ReverseDcf && Truthy(Inside(quality, StartingMarginProxied))
    case ReverseDcfEnterpriseValue =>
      model == ReverseDcf && bridge && Get(p, TargetValueBasis) == Words("enterprise_value_proxy")
    case ReverseDcfCash =>
      model == ReverseDcf && bridge && Get(p, TargetValueBasis) != Words("enterprise_value_proxy")
    case BookEquity => model == ResidualIncome && Truthy(Inside(Get(p, DataQuality), UsedProxyBookEquity))
    case AverageMarketCap =>
      model == CapitalAllocation && Get(p, ShareholderYieldBasis).Dict? && "average_market_cap" <= how
    case DilutedShares =>
      model == CapitalAllocation && Get(p, ShareholderYieldBasis).Dict? && how == "latest_market_cap_proxy_shares"
    case NoMarketCap =>
      model == CapitalAllocation && Get(p, ShareholderYieldBasis).Dict? && !("average_market_cap" <= how) &&
      how != "latest_market_cap_proxy_shares" && Inside(Get(p, ShareholderYieldBasis), MarketCapDenominator) == Null
    case CapitalCost => model == Roic && Get(p, CapitalCostProxy) != Null
  }

  lemma ProxiesMeaning(w: Wording, model: Model, p: Payload, x: Proxy)
    ensures x in ProxiesOf(w, model, p) <==> UsesProxy(w, model, p, x)
  {
    hide Truthy, Inside, Get;
    assert "latest_market_cap_proxy_shares"[0] != "average_market_cap"[0];
  }

  /** The sector refuses cash-flow models of issuers said not to be supported or like a financial firm, and is cautious
      about five other models of the latter. */
  lemma VerdictMeaning(w: Wording, inp: Inputs, p: Payload)
    ensures var financial := w.financialLike(ContextOf(inp, p));
            var refused := Get(p, Applicability).Dict? && IsSupported in Get(p, Applicability).fields &&
                           !Truthy(Inside(Get(p, Applicability), IsSupported));
            && (VerdictOf(w, inp, p).status == Unsupported <==>
                inp.model in {Dcf, ReverseDcf} && (financial || refused))
            && (VerdictOf(w, inp, p).status == Partial <==>
                inp.model in {AltmanZ, Dupont, Piotroski, Roic, CapitalAllocation} && financial)
            && VerdictOf(w, inp, p).status in {Supported, Partial, Unsupported}
            && VerdictOf(w, inp, p).classification == ContextOf(inp, p)
            && VerdictOf(w, inp, p).note ==
               (match VerdictOf(w, inp, p).status
                case Unsupported => StructurallyUnreliable
                case Partial => OnlyDirectional
                case _ => if inp.model == ResidualIncome && financial then BetterThanCashFlow else Suitable)
  {
    hide ContextOf, Truthy;
  }

  /** The issuer's classification is the request's, else the one the result carries, else the dataset's. */
  lemma ContextMeaning(inp: Inputs, p: Payload)
    ensures var carried := Inside(Get(p, Applicability), OutputNormalization.Classification);
            ContextOf(inp, p) ==
            if inp.companyContext.Some? then inp.companyContext.value
            else if carried.Dict? then carried.fields
            else if inp.dataset.Some? then inp.dataset.value.classification
            else map[]
  {
  }

  /** The fields shown, over the payload: a market field the snapshot has, or a statement field some period has and, for
      a DCF, not one of a proxy that was not used. */
  lemma FieldsShown(inp: Inputs, quality: Value, field: string)
    ensures field in FieldsOf(inp, quality) <==>
            field in ModelFields(inp.model) &&
            (if "market_snapshot." <= field
             then SnapshotOf(inp).Some? && field[16..] in SnapshotOf(inp).value.known
             else (exists period :: period in PeriodsOf(inp) && field in period.known) &&
                  (inp.model == Dcf && field in {"operating_cash_flow", "capex"} ==>
                    Truthy(Inside(quality, StartingCashFlowProxied))) &&
                  (inp.model == Dcf && field in {"cash_and_cash_equivalents", "short_term_investments"} ==>
                    Truthy(Inside(quality, CapitalStructureProxied))))
  {
    hide ModelFields, FieldsOf, SnapshotOf, PeriodsOf, Truthy, Inside;
    FieldsMeaning(inp, quality, field);
    assert |MARKET_PREFIX| == 16;
  }

  // ----- what follows -----

  function Whole(s: Status): int {
    match s case Supported => 90 case Partial => 65 case ByProxy => 50 case InsufficientData => 20 case Unsupported => 0
  }

  function Lost(b: bool, n: int): int {
    if b then n else 0
  }

  /** What a result loses: for missing fields, for any proxy, for anything stale, and for a cautious sector. */
  function LostBy(d: Derived): int {
    Lost(|d.missing| == 1, 5) + Lost(|d.missing| > 1, 15) + Lost(exists x :: x in d.proxies, 10) +
    Lost(exists x :: x in d.stale, 10) + Lost(d.verdict.status == Partial, 10)
  }

  /** The score written is that of the status less what the result loses, and never negative; the labels begin at 85, 65
      and 35 hundredths. */
  lemma ScoreWritten(w: Wording, inp: Inputs, p: Payload)
    ensures var d := Derive(w, inp, Versioned(inp, p));
            var left := Whole(d.status) - LostBy(d);
            At(Standardized(w, inp, p), ConfidenceScore) ==
            Some(Number((if left < 0 then 0 else left) as real / 100.0))
  {
    hide Derive, Versioned, Written;
    var d := Derive(w, inp, Versioned(inp, p));
    WrittenAt(w, inp, p, ConfidenceScore);
    assert d.proxies != [] <==> exists x :: x in d.proxies by {
      if d.proxies != [] { assert d.proxies[0] in d.proxies; }
    }
    assert d.stale != [] <==> exists x :: x in d.stale by { if d.stale != [] { assert d.stale[0] in d.stale; } }
    ScoreOfDerived(d);
    hide LostBy, Score, Derived.Against;
    assert StandardValue(w, inp, p, ConfidenceScore) == Some(Number(Score(d.status, d.Against()) as real / 100.0));
  }

  lemma ScoreOfDerived(d: Derived)
    requires d.proxies != [] <==> exists x :: x in d.proxies
    requires d.stale != [] <==> exists x :: x in d.stale
    ensures var left := Whole(d.status) - LostBy(d); Score(d.status, d.Against()) == if left < 0 then 0 else left
  {
    assert |d.missing| == 0 <==> d.missing == [];
  }

  lemma LabelMeaning(score: int)
    ensures LabelOf(score) == High <==> 85 <= score
    ensures LabelOf(score) == Moderate <==> 65 <= score <= 84
    ensures LabelOf(score) == Low <==> 35 <= score <= 64
    ensures LabelOf(score) == VeryLow <==> score <= 34
  {
  }

  /** What a warning may be due to. */
  ghost predicate Warns(w: Wording, model: Model, d: Derived, line: string) {
    line in w.baseline(model) ||
    ((exists x :: x in d.missing) && line == w.misleading(FieldsIncomplete(d.missing))) ||
    ((exists x :: x in d.proxies) && line == w.misleading(Approximated)) ||
    ((exists x :: x in d.stale) && line == w.misleading(InputsLag)) ||
    (d.verdict.status in {Partial, Unsupported} && line == w.misleading(SectorSays(d.verdict.note))) ||
    (d.status == InsufficientData && line == w.misleading(NotDecisionGrade))
  }

  /** The warnings are exactly those due, stripped, without blanks or repeats. */
  lemma WarningsMeaning(w: Wording, model: Model, d: Derived, text: string)
    ensures text in MisleadingOf(w, model, d) <==>
            text != "" && exists line :: Warns(w, model, d, line) && Strip(line) == text
    ensures Distinct(MisleadingOf(w, model, d))
  {
    hide Strip, Deduped, Warns;
    var lines := Warnings(w, model, d);
    DedupedFacts(lines);
    forall line ensures line in lines <==> Warns(w, model, d, line) { WarningsDue(w, model, d, line); }
  }

  lemma WarningsDue(w: Wording, model: Model, d: Derived, line: string)
    ensures line in Warnings(w, model, d) <==> Warns(w, model, d, line)
  {
    if d.missing != [] { assert d.missing[0] in d.missing; }
    if d.proxies != [] { assert d.proxies[0] in d.proxies; }
    if d.stale != [] { assert d.stale[0] in d.stale; }
  }

  /** Every part of what is derived is written under its own key. */
  lemma ResultSays(w: Wording, inp: Inputs, p: Payload)
    ensures var (d, q) := (Derive(w, inp, Versioned(inp, p)), Standardized(w, inp, p));
            && At(q, StatusKey) == At(q, ModelStatus) == Some(Words(StatusText(d.status)))
            && At(q, ConfidenceReasons) == Some(Texts(ReasonTexts(w, d)))
            && At(q, FieldsUsed) == Some(Texts(d.fields))
            && At(q, ProxyUsage) == Some(ProxyValue(w, d))
            && At(q, StaleInputs) == Some(StaleValue(w, d))
            && At(q, SectorSuitability) == Some(w.verdict(d.verdict))
            && At(q, MisleadingReasons) == Some(Texts(MisleadingOf(w, inp.model, d)))
            && At(q, StatusFlags) == Some(Texts(FlagTexts(w, Flags(d.status, d.Against()))))
  {
    hide Derive, Standardized, Versioned, At, Texts, FlagTexts, Flags, ReasonTexts, MisleadingOf, StaleValue,
      ProxyValue, StatusText, SummaryText, Score;
    UnderKey(w, inp, p, StatusKey);
    UnderKey(w, inp, p, ModelStatus);
    UnderKey(w, inp, p, ConfidenceReasons);
    UnderKey(w, inp, p, FieldsUsed);
    UnderKey(w, inp, p, ProxyUsage);
    UnderKey(w, inp, p, StaleInputs);
    UnderKey(w, inp, p, SectorSuitability);
    UnderKey(w, inp, p, MisleadingReasons);
    UnderKey(w, inp, p, StatusFlags);
  }

  lemma UnderKey(w: Wording, inp: Inputs, p: Payload, k: Key)
    requires k in WRITTEN
    ensures At(Standardized(w, inp, p), k) ==
            Some(DerivedValue(w, inp.model, Derive(w, inp, Versioned(inp, p)), p, k))
  {
    hide DerivedValue, Derive, Versioned;
    WrittenAt(w, inp, p, k);
    OnlyIdsAdded(w, inp, p, k);
  }

  /** Each part is derived from the payload, its version filled in, by its own rule. */
  lemma PartsDerived(w: Wording, inp: Inputs, p: Payload)
    ensures var d := Derive(w, inp, p);
            && d.status == StatusOf(p) && d.missing == MissingOf(w, p) && d.proxies == ProxiesOf(w, inp.model, p)
            && d.stale == StaleOf(w, inp, p, ReferenceDate(inp)) && d.verdict == VerdictOf(w, inp, p)
            && d.fields == FieldsOf(inp, Get(p, InputQuality))
  {
    hide StatusOf, MissingOf, ProxiesOf, StaleOf, VerdictOf, FieldsOf, ReferenceDate, Get;
  }

  lemma OnlyIdsAdded(w: Wording, inp: Inputs, p: Payload, k: Key)
    requires k in WRITTEN
    ensures At(Standardized(w, inp, p), k) == At(Written(w, inp, p), k)
  {
    hide Written;
  }

  /** The proxy section says that proxies were used exactly when it lists one. */
  lemma ProxyUsageMeaning(w: Wording, d: Derived)
    ensures ProxyValue(w, d).items[0] == Truth(exists x :: x in d.proxies)
    ensures ProxyValue(w, d).items[1].Items? && |ProxyValue(w, d).items[1].items| == |d.proxies|
    ensures forall i :: 0 <= i < |d.proxies| ==> ProxyValue(w, d).items[1].items[i] == w.proxy(d.proxies[i])
  {
    if d.proxies != [] { assert d.proxies[0] in d.proxies; }
  }
}
