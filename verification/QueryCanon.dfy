/**
 Query canonicalisation for the company routes, and the hot-cache key computed independently from the raw query. A
 query is its list of decoded parameters; `urlencode` and the decoder are taken to be inverse. The as-of and price
 normalisers are parameters.
 */
module QueryCanon {
  import opened Ordering
  import opened Text
  import opened Wrappers

  datatype Route = Financials | Overview | Bootstrap

  datatype Param = Param(name: string, value: string)

  /** The singleton parameters. */
  datatype Kind =
    | AsOf
    | View
    | IncludeOverviewBrief
    | IncludeInsiders
    | IncludeInstitutional
    | IncludeEarningsSummary
    | PriceStart
    | PriceEnd
    | PriceLatest
    | PriceMaxPoints
    | Sections
    | Compact

  const ALL_KINDS: seq<Kind> := [
    AsOf, View, IncludeOverviewBrief, IncludeInsiders, IncludeInstitutional, IncludeEarningsSummary,
    PriceStart, PriceEnd, PriceLatest, PriceMaxPoints, Sections, Compact]

  const FLAGS := {IncludeOverviewBrief, IncludeInsiders, IncludeInstitutional, IncludeEarningsSummary}

  const PRICES := {PriceStart, PriceEnd, PriceLatest, PriceMaxPoints}

  predicate Applies(route: Route, k: Kind) {
    route == Bootstrap || k == AsOf || k == View
  }

  function NameOf(route: Route, k: Kind): string {
    match k
    case AsOf => "as_of"
    case View => if route == Financials then "view" else "financials_view"
    case IncludeOverviewBrief => "include_overview_brief"
    case IncludeInsiders => "include_insiders"
    case IncludeInstitutional => "include_institutional"
    case IncludeEarningsSummary => "include_earnings_summary"
    case PriceStart => "price_start_date"
    case PriceEnd => "price_end_date"
    case PriceLatest => "price_latest_n"
    case PriceMaxPoints => "price_max_points"
    case Sections => "sections"
    case Compact => "compact"
  }

  predicate Is(route: Route, p: Param, k: Kind) {
    Applies(route, k) && p.name == NameOf(route, k)
  }

  /** A parameter that is not one of the route's singletons passes through. */
  predicate PassesThrough(route: Route, p: Param) {
    forall i :: 0 <= i < |ALL_KINDS| ==> !Is(route, p, ALL_KINDS[i])
  }

  lemma NamesDiffer(route: Route, j: Kind, k: Kind)
    requires NameOf(route, j) == NameOf(route, k)
    ensures j == k
  {
  }

  // ----- reading the singletons -----

  /** The singleton values present, stripped; a blank value counts as absent. */
  type Controls = map<Kind, string>

  function ValuesOf(route: Route, params: seq<Param>, k: Kind): seq<Param> {
    Filter((p: Param) => Is(route, p, k), params)
  }

  ghost predicate NoDuplicates(route: Route, params: seq<Param>) {
    forall k :: |ValuesOf(route, params, k)| <= 1
  }

  function ReadOne(route: Route, params: seq<Param>, k: Kind): Option<string> {
    var values := ValuesOf(route, params, k);
    if values == [] || Strip(values[0].value) == "" then None else Some(Strip(values[0].value))
  }

  function ReadControls(route: Route, params: seq<Param>): Controls {
    map k | k in ALL_KINDS && ReadOne(route, params, k).Some? :: ReadOne(route, params, k).value
  }

  // ----- the normalisers -----

  datatype PriceControls = PriceControls(values: Controls, token: string)

  /** The as-of and price normalisers; None is an invalid request. */
  datatype Normalizers = Normalizers(asOf: string -> Option<string>, prices: Controls -> Option<PriceControls>)

  predicate Clean(text: string) {
    text != "" && Trimmed(text)
  }

  /** Both are idempotent, and their texts survive a round trip through a query. */
  ghost predicate ValidNormalizers(n: Normalizers) {
    (forall text :: n.asOf(text).Some? ==>
      Clean(n.asOf(text).value) && n.asOf(text).value != "latest" && n.asOf(n.asOf(text).value) == n.asOf(text)) &&
    forall c: Controls :: n.prices(c).Some? ==>
      n.prices(c).value.values.Keys <= PRICES &&
        (forall k :: k in n.prices(c).value.values ==> Clean(n.prices(c).value.values[k])) &&
      n.prices(n.prices(c).value.values) == n.prices(c)
  }

  const VIEWS := {"full", "core_segments", "core"}

  const TRUE_FLAGS := {"1", "true", "yes", "on"}

  const TRUE_COMPACT := {"1", "true", "yes"}

  const SECTION_NAMES := {
    "company_summary", "latest_financials", "recent_filings", "recent_events", "ownership_summary", "source_freshness",
    "warnings"}

  function Raw(c: Controls, k: Kind): string {
    if k in c then c[k] else ""
  }

  function NormalView(c: Controls): string {
    var view := Lower(Strip(Raw(c, View)));
    if view == "" then "full" else view
  }

  /** The four price parameters. */
  function PricePart(c: Controls): Controls {
    map k | k in c && k in PRICES :: c[k]
  }

  predicate FlagOn(c: Controls, k: Kind) {
    k in c && Lower(Strip(c[k])) in TRUE_FLAGS
  }

  function FlagsOn(c: Controls): set<Kind> {
    set k | k in FLAGS && FlagOn(c, k)
  }

  predicate CompactOn(c: Controls) {
    Compact in c && Lower(Strip(c[Compact])) in TRUE_COMPACT
  }

  /** The known sections requested, in request order. */
  function Requested(parts: seq<string>): seq<string> {
    if parts == [] then []
    else
      var name := Lower(Strip(parts[0]));
      (if Strip(parts[0]) != "" && name in SECTION_NAMES then [name] else []) + Requested(parts[1..])
  }

  function LegacySections(flags: set<Kind>): seq<string> {
    (if IncludeOverviewBrief in flags then ["company_summary", "recent_filings", "recent_events"] else []) +
    (if IncludeInsiders in flags || IncludeInstitutional in flags then ["ownership_summary"] else []) +
    (if IncludeEarningsSummary in flags then ["recent_events"] else [])
  }

  /** The sections, sorted and without repeats, as both the canonical query and the key use them. */
  function SectionsOf(raw: string, flags: set<Kind>): seq<string> {
    var requested := Requested(Split(raw, ','));
    SortedDistinct(if requested != [] then requested else LegacySections(flags))
  }

  // ----- the canonical query -----

  function Put(c: Controls, k: Kind, value: Option<string>): Controls {
    if value.Some? then c[k := value.value] else c - {k}
  }

  predicate ValidRequest(route: Route, n: Normalizers, c: Controls) {
    (AsOf in c ==> n.asOf(c[AsOf]).Some?) && NormalView(c) in VIEWS &&
      (route == Bootstrap ==> n.prices(PricePart(c)).Some?)
  }

  /** The rewritten value of one singleton. */
  function NormalValue(route: Route, n: Normalizers, c: Controls, k: Kind): Option<string>
    requires ValidRequest(route, n, c)
  {
    if k == AsOf then if AsOf in c then n.asOf(c[AsOf]) else None
    else if k == View then if NormalView(c) == "full" then None else Some(NormalView(c))
    else if route != Bootstrap then Lookup(c, k)
    else if k in FLAGS then if FlagOn(c, k) then Some("true") else None
    else if k in PRICES then Lookup(n.prices(PricePart(c)).value.values, k)
    else if k == Sections then JoinedSections(SectionsOf(Raw(c, Sections), FlagsOn(c)))
    else if CompactOn(c) then Some("true")
    else None
  }

  function JoinedSections(sections: seq<string>): Option<string> {
    if sections == [] then None else Some(Join(sections, ','))
  }

  function Lookup(c: Controls, k: Kind): Option<string> {
    if k in c then Some(c[k]) else None
  }

  /** The rewritten singleton values. */
  function Normalized(route: Route, n: Normalizers, c: Controls): Controls
    requires ValidRequest(route, n, c)
  {
    map k | k in ALL_KINDS && NormalValue(route, n, c, k).Some? :: NormalValue(route, n, c, k).value
  }

  function ItemsFrom(route: Route, c: Controls, kinds: seq<Kind>): seq<Param> {
    if kinds == [] then [] else ItemOf(route, c, kinds[0]) + ItemsFrom(route, c, kinds[1..])
  }

  function ItemOf(route: Route, c: Controls, k: Kind): seq<Param> {
    if k in c then [Param(NameOf(route, k), c[k])] else []
  }

  /** Sort key (name, value). */
  predicate ParamLe(a: Param, b: Param) {
    if a.name != b.name then LexLe(a.name, b.name) else LexLe(a.value, b.value)
  }

  function Others(route: Route, params: seq<Param>): seq<Param> {
    Filter((p: Param) => PassesThrough(route, p), params)
  }

  function WithControls(route: Route, params: seq<Param>, c: Controls): seq<Param> {
    SortBy(ParamLe, Others(route, params) + ItemsFrom(route, c, ALL_KINDS))
  }

  ghost predicate ValidQuery(route: Route, n: Normalizers, params: seq<Param>) {
    NoDuplicates(route, params) && ValidRequest(route, n, ReadControls(route, params))
  }

  /** `_canonicalize_company_query_string`, before encoding. */
  function Canonical(route: Route, n: Normalizers, params: seq<Param>): seq<Param>
    requires ValidRequest(route, n, ReadControls(route, params))
  {
    WithControls(route, params, Normalized(route, n, ReadControls(route, params)))
  }

  // ----- the hot-cache key -----

  datatype HotKey = HotKey(
    route: Route, ticker: string, view: string, asOf: string, flags: set<Kind>, priceToken: string,
    sections: seq<string>, compact: bool)

  /** The key the middleware asks for, from the raw query of a valid request; it names its parts. An overview key always
      asks for the default price token. */
  function HotKeyOf(route: Route, n: Normalizers, ticker: string, c: Controls): HotKey
    requires ValidRequest(route, n, c)
  {
    var asOf := if AsOf in c then n.asOf(c[AsOf]).value else "latest";
    if route == Financials then HotKey(route, ticker, NormalView(c), asOf, {}, "", [], false)
    else if route == Overview then HotKey(route, ticker, NormalView(c), asOf, {}, "default", [], false)
    else HotKey(route, ticker, NormalView(c), asOf, FlagsOn(c), n.prices(PricePart(c)).value.token,
                SectionsOf(Raw(c, Sections), FlagsOn(c)), CompactOn(c))
  }

  /** Read every singleton; a repeated one makes the request invalid. */
  method ReadSingletons(route: Route, params: seq<Param>) returns (r: Option<Controls>)
    ensures r.Some? <==> NoDuplicates(route, params)
    ensures r.Some? ==> r.value == ReadControls(route, params)
  {
    hide ValuesOf, ReadOne;
    var values: Controls := map[];
    for i := 0 to |ALL_KINDS|
      invariant forall k :: k in ALL_KINDS[..i] ==> |ValuesOf(route, params, k)| <= 1
      invariant forall k :: Lookup(values, k) == if k in ALL_KINDS[..i] then ReadOne(route, params, k) else None
    {
      var k := ALL_KINDS[i];
      if |ValuesOf(route, params, k)| > 1 {
        return None;
      }
      KindsStep(i);
      ghost var before := values;
      values := Put(values, k, ReadOne(route, params, k));
      forall j ensures Lookup(values, j) == if j in ALL_KINDS[..i + 1] then ReadOne(route, params, j) else None {
        assert j != k ==> Lookup(values, j) == Lookup(before, j);
      }
    }
    AllKindsListed();
    assert ALL_KINDS[..|ALL_KINDS|] == ALL_KINDS;
    forall k ensures Lookup(values, k) == Lookup(ReadControls(route, params), k) {
      assert k in ALL_KINDS;
    }
    SameLookups(values, ReadControls(route, params));
    return Some(values);
  }

  lemma SameLookups(a: Controls, b: Controls)
    requires forall k :: Lookup(a, k) == Lookup(b, k)
    ensures a == b
  {
    forall k ensures k in a <==> k in b ensures k in a ==> a[k] == b[k] {
      assert Lookup(a, k) == Lookup(b, k);
    }
  }

  lemma NormalLookup(route: Route, n: Normalizers, c: Controls, k: Kind)
    requires ValidRequest(route, n, c)
    ensures Lookup(Normalized(route, n, c), k) == NormalValue(route, n, c, k)
  {
    hide NormalValue;
    AllKindsListed();
    assert k in ALL_KINDS;
  }

  lemma PutLookup(c: Controls, k: Kind, value: Option<string>)
    ensures forall j :: Lookup(Put(c, k, value), j) == if j == k then value else Lookup(c, j)
  {
  }

  const FLAG_ORDER := [IncludeOverviewBrief, IncludeInsiders, IncludeInstitutional, IncludeEarningsSummary]

  const PRICE_ORDER := [PriceStart, PriceEnd, PriceLatest, PriceMaxPoints]

  /** Put a value for each of some singletons. */
  method PutEach(common: Controls, kinds: seq<Kind>, chosen: Controls) returns (values: Controls)
    ensures forall k :: Lookup(values, k) == if k in kinds then Lookup(chosen, k) else Lookup(common, k)
  {
    hide Lookup, Put;
    values := common;
    for i := 0 to |kinds|
      invariant forall k :: Lookup(values, k) == if k in kinds[..i] then Lookup(chosen, k) else Lookup(common, k)
    {
      PutLookup(values, kinds[i], Lookup(chosen, kinds[i]));
      assert kinds[..i + 1] == kinds[..i] + [kinds[i]];
      values := Put(values, kinds[i], Lookup(chosen, kinds[i]));
    }
    assert kinds[..|kinds|] == kinds;
  }

  function FlagTexts(read: Controls): Controls {
    map k | k in FLAGS && FlagOn(read, k) :: "true"
  }

  lemma FlagTextLookup(read: Controls, k: Kind)
    ensures k in FLAGS ==> Lookup(FlagTexts(read), k) == if FlagOn(read, k) then Some("true") else None
    ensures k in FLAG_ORDER <==> k in FLAGS
    ensures k in PRICE_ORDER <==> k in PRICES
  {
    hide FlagOn;
  }

  /** The four steps of the bootstrap rewrite together give every singleton its normal value. */
  lemma BootstrapSteps(n: Normalizers, read: Controls, common: Controls, flagged: Controls, priced: Controls, k: Kind)
    requires ValidRequest(Bootstrap, n, read)
    requires Lookup(common, AsOf) == NormalValue(Bootstrap, n, read, AsOf)
    requires Lookup(common, View) == NormalValue(Bootstrap, n, read, View)
    requires Lookup(flagged, k) == if k in FLAG_ORDER then Lookup(FlagTexts(read), k) else Lookup(common, k)
    requires Lookup(priced, k) ==
             if k in PRICE_ORDER then Lookup(n.prices(PricePart(read)).value.values, k) else Lookup(flagged, k)
    requires k != Sections && k != Compact
    ensures Lookup(priced, k) == NormalValue(Bootstrap, n, read, k)
  {
    hide SectionsOf, NormalView, FlagOn, CompactOn, PricePart, Lookup, FlagTexts, JoinedSections, ValidRequest;
    FlagTextLookup(read, k);
  }

  /** The workspace-bootstrap steps, after the common ones. */
  method RewriteBootstrap(n: Normalizers, read: Controls, common: Controls) returns (values: Controls)
    requires ValidRequest(Bootstrap, n, read)
    requires Lookup(common, AsOf) == NormalValue(Bootstrap, n, read, AsOf)
    requires Lookup(common, View) == NormalValue(Bootstrap, n, read, View)
    ensures forall k :: Lookup(values, k) == NormalValue(Bootstrap, n, read, k)
  {
    hide SectionsOf, NormalView, FlagOn, CompactOn, PricePart, Lookup, Put, FlagTexts, JoinedSections;
    var flagged := PutEach(common, FLAG_ORDER, FlagTexts(read));
    var priced := PutEach(flagged, PRICE_ORDER, n.prices(PricePart(read)).value.values);
    forall k | k != Sections && k != Compact ensures Lookup(priced, k) == NormalValue(Bootstrap, n, read, k) {
      BootstrapSteps(n, read, common, flagged, priced, k);
    }
    var sections := JoinedSections(SectionsOf(Raw(read, Sections), FlagsOn(read)));
    PutLookup(priced, Sections, sections);
    values := Put(priced, Sections, sections);
    PutLookup(values, Compact, if CompactOn(read) then Some("true") else None);
    values := Put(values, Compact, if CompactOn(read) then Some("true") else None);
  }

  /** Rewrite the dictionary step by step. */
  method Rewrite(route: Route, n: Normalizers, read: Controls) returns (r: Option<Controls>)
    requires ValidNormalizers(n)
    ensures r.Some? <==> ValidRequest(route, n, read)
    ensures r.Some? ==> r.value == Normalized(route, n, read)
  {
    hide SectionsOf, NormalView, FlagOn, CompactOn, PricePart, Normalized;
    if AsOf in read && n.asOf(read[AsOf]).None? {
      return None;
    }
    if NormalView(read) !in VIEWS || (route == Bootstrap && n.prices(PricePart(read)).None?) {
      return None;
    }
    var values := Put(read, AsOf, if AsOf in read then n.asOf(read[AsOf]) else None);
    values := Put(values, View, if NormalView(read) == "full" then None else Some(NormalView(read)));
    if route == Bootstrap {
      values := RewriteBootstrap(n, read, values);
    }
    forall k ensures Lookup(values, k) == Lookup(Normalized(route, n, read), k) { NormalLookup(route, n, read, k); }
    SameLookups(values, Normalized(route, n, read));
    return Some(values);
  }

  /** The canonicaliser: read every singleton, rewrite the values, sort the items. */
  method Canonicalize(route: Route, n: Normalizers, params: seq<Param>) returns (r: Option<seq<Param>>)
    requires ValidNormalizers(n)
    ensures r.Some? <==> ValidQuery(route, n, params)
    ensures r.Some? ==> r.value == Canonical(route, n, params)
  {
    hide NoDuplicates, ValidRequest, Normalized, ReadControls, WithControls;
    var read := ReadSingletons(route, params);
    if read == None {
      return None;
    }
    var values := Rewrite(route, n, read.value);
    if values == None {
      return None;
    }
    return Some(WithControls(route, params, values.value));
  }

  lemma AllKindsListed()
    ensures forall k: Kind :: k in ALL_KINDS
  {
    forall k: Kind ensures k in ALL_KINDS {
      var i := match k
        case AsOf => 0 case View => 1 case IncludeOverviewBrief => 2 case IncludeInsiders => 3
        case IncludeInstitutional => 4 case IncludeEarningsSummary => 5 case PriceStart => 6 case PriceEnd => 7
        case PriceLatest => 8 case PriceMaxPoints => 9 case Sections => 10 case Compact => 11;
      assert ALL_KINDS[i] == k;
    }
  }

  lemma KindsStep(i: nat)
    requires i < |ALL_KINDS|
    ensures forall k :: k in ALL_KINDS[..i + 1] <==> k in ALL_KINDS[..i] || k == ALL_KINDS[i]
    ensures ALL_KINDS[i] !in ALL_KINDS[..i]
  {
    assert ALL_KINDS[..i + 1] == ALL_KINDS[..i] + [ALL_KINDS[i]];
    KindsAreDistinct();
  }

  lemma KindsAreDistinct()
    ensures Distinct(ALL_KINDS)
  {
  }

  // ----- reading a canonical query back -----

  /** What a rewritten dictionary looks like: only the route's singletons, with clean texts. */
  ghost predicate Writable(route: Route, c: Controls) {
    forall k :: k in c ==> Applies(route, k) && Clean(c[k])
  }

  lemma ItemOfKind(route: Route, c: Controls, j: Kind, k: Kind)
    requires Writable(route, c)
    ensures ValuesOf(route, ItemOf(route, c, j), k) == if j == k then ItemOf(route, c, j) else []
  {
    hide NameOf, Applies;
    if j in c && NameOf(route, j) == NameOf(route, k) { NamesDiffer(route, j, k); }
  }

  lemma ValuesConcat(route: Route, a: seq<Param>, b: seq<Param>, k: Kind)
    ensures ValuesOf(route, a + b, k) == ValuesOf(route, a, k) + ValuesOf(route, b, k)
    ensures ValuesOf(route, [], k) == []
  {
    FilterConcat((p: Param) => Is(route, p, k), a, b);
  }

  lemma {:induction false} ItemsOfKind(route: Route, c: Controls, kinds: seq<Kind>, k: Kind)
    requires Writable(route, c) && Distinct(kinds)
    ensures ValuesOf(route, ItemsFrom(route, c, kinds), k) == if k in kinds then ItemOf(route, c, k) else []
  {
    hide Is, ItemOf, Writable, ValuesOf;
    if kinds == [] {
      ValuesConcat(route, [], [], k);
    } else {
      ItemsOfKind(route, c, kinds[1..], k);
      ItemOfKind(route, c, kinds[0], k);
      ValuesConcat(route, ItemOf(route, c, kinds[0]), ItemsFrom(route, c, kinds[1..]), k);
      assert kinds == [kinds[0]] + kinds[1..];
    }
  }

  lemma OthersHaveNoKind(route: Route, params: seq<Param>, k: Kind)
    ensures ValuesOf(route, Others(route, params), k) == []
  {
    hide NameOf;
    AllKindsListed();
    var values := ValuesOf(route, Others(route, params), k);
    forall p ensures p !in values {
      if p in Others(route, params) {
        assert k in ALL_KINDS;
        var i :| 0 <= i < |ALL_KINDS| && ALL_KINDS[i] == k;
        assert !Is(route, p, ALL_KINDS[i]);
      }
    }
    NoMembers(values);
  }

  lemma SingletonMultiset(s: seq<Param>, p: Param)
    requires multiset(s) == multiset{p}
    ensures s == [p]
  {
    assert |multiset(s)| == 1;
    assert s[0] in multiset(s);
  }

  lemma EmptyMultiset(s: seq<Param>)
    requires multiset(s) == multiset{}
    ensures s == []
  {
    assert |multiset(s)| == 0;
  }

  lemma ValuesOfCanonical(route: Route, params: seq<Param>, c: Controls, k: Kind)
    requires Writable(route, c)
    ensures ValuesOf(route, WithControls(route, params, c), k) == if k in c then [Param(NameOf(route, k), c[k])] else []
  {
    hide NameOf, Others, ItemsFrom;
    var all := Others(route, params) + ItemsFrom(route, c, ALL_KINDS);
    AllKindsListed();
    KindsAreDistinct();
    ItemsOfKind(route, c, ALL_KINDS, k);
    OthersHaveNoKind(route, params, k);
    ValuesConcat(route, Others(route, params), ItemsFrom(route, c, ALL_KINDS), k);
    SortPermutes(ParamLe, all);
    FilterPermutes((p: Param) => Is(route, p, k), SortBy(ParamLe, all), all);
    var values := ValuesOf(route, WithControls(route, params, c), k);
    assert multiset(values) == multiset(ValuesOf(route, all, k));
    if k in c {
      SingletonMultiset(values, Param(NameOf(route, k), c[k]));
    } else {
      EmptyMultiset(values);
    }
  }

  /** Reading the written query gives the dictionary back. */
  lemma ReadBack(route: Route, params: seq<Param>, c: Controls)
    requires Writable(route, c)
    ensures NoDuplicates(route, WithControls(route, params, c))
    ensures ReadControls(route, WithControls(route, params, c)) == c
  {
    hide NameOf, WithControls, ValuesOf, Strip;
    AllKindsListed();
    var written := WithControls(route, params, c);
    forall k ensures |ValuesOf(route, written, k)| <= 1
      ensures ReadOne(route, written, k) == if k in c then Some(c[k]) else None
    {
      ValuesOfCanonical(route, params, c, k);
      if k in c { StripTrims(c[k]); }
    }
  }

  /** The parameters that pass through are the same in the canonical query. */
  lemma OthersOfCanonical(route: Route, params: seq<Param>, c: Controls)
    requires Writable(route, c)
    ensures multiset(Others(route, WithControls(route, params, c))) == multiset(Others(route, params))
  {
    hide NameOf;
    var others, items := Others(route, params), ItemsFrom(route, c, ALL_KINDS);
    SortPermutes(ParamLe, others + items);
    FilterPermutes((p: Param) => PassesThrough(route, p), SortBy(ParamLe, others + items), others + items);
    FilterConcat((p: Param) => PassesThrough(route, p), others, items);
    FilterTwice((p: Param) => PassesThrough(route, p), params);
    NoItemPasses(route, c, ALL_KINDS);
  }

  lemma {:induction false} FilterTwice(p: Param -> bool, s: seq<Param>)
    ensures Filter(p, Filter(p, s)) == Filter(p, s)
  {
    if s != [] { FilterTwice(p, s[1..]); }
  }

  /** A written control is one of the route's singletons, so it never passes through. */
  lemma {:induction false} NoItemPasses(route: Route, c: Controls, kinds: seq<Kind>)
    requires Writable(route, c)
    ensures Others(route, ItemsFrom(route, c, kinds)) == []
  {
    hide NameOf, Applies;
    if kinds != [] {
      NoItemPasses(route, c, kinds[1..]);
      FilterConcat((p: Param) => PassesThrough(route, p), ItemOf(route, c, kinds[0]), ItemsFrom(route, c, kinds[1..]));
      if kinds[0] in c {
        AllKindsListed();
        assert kinds[0] in ALL_KINDS;
        var i :| 0 <= i < |ALL_KINDS| && ALL_KINDS[i] == kinds[0];
        assert Is(route, ItemOf(route, c, kinds[0])[0], ALL_KINDS[i]);
      }
    }
  }

  lemma ParamOrder()
    ensures Total(ParamLe) && Transitive(ParamLe)
    ensures forall a, b :: ParamLe(a, b) && ParamLe(b, a) ==> a == b
  {
    hide LexLe;
    LexOrder();
  }

  /** The written query depends only on the multiset of pass-through parameters and the dictionary. */
  lemma WrittenForgetsOrder(route: Route, params: seq<Param>, other: seq<Param>, c: Controls)
    requires multiset(Others(route, params)) == multiset(Others(route, other))
    ensures WithControls(route, params, c) == WithControls(route, other, c)
  {
    hide ParamLe, Others, ItemsFrom;
    ParamOrder();
    var items := ItemsFrom(route, c, ALL_KINDS);
    SortForgetsOrder(ParamLe, Others(route, params) + items, Others(route, other) + items);
  }

  // ----- normalising twice -----

  predicate Plain(name: string) {
    name != "" && forall i :: 0 <= i < |name| ==> 'a' <= name[i] <= 'z' || name[i] == '_'
  }

  lemma PlainName(name: string)
    requires Plain(name)
    ensures Strip(name) == name && Lower(name) == name && Clean(name) && ',' !in name
  {
    hide Strip, Lower;
    assert Trimmed(name);
    StripTrims(name);
    LowerKeepsLower(name);
  }

  lemma SectionNamesArePlain(name: string)
    requires name in SECTION_NAMES
    ensures Plain(name)
  {
  }

  lemma SectionNamesAreStable(name: string)
    requires name in SECTION_NAMES
    ensures Strip(name) == name && Lower(name) == name && Clean(name) && ',' !in name
  {
    hide Strip, Lower, Plain;
    SectionNamesArePlain(name);
    PlainName(name);
  }

  lemma {:induction false} RequestedNames(parts: seq<string>)
    ensures forall name :: name in Requested(parts) ==> name in SECTION_NAMES
  {
    hide Strip, Lower;
    if parts != [] { RequestedNames(parts[1..]); }
  }

  lemma {:induction false} RequestedKeepsNames(names: seq<string>)
    requires forall name :: name in names ==> name in SECTION_NAMES
    ensures Requested(names) == names
  {
    hide Strip, Lower;
    if names != [] {
      SectionNamesAreStable(names[0]);
      RequestedKeepsNames(names[1..]);
      assert names == [names[0]] + names[1..];
    }
  }

  lemma SectionsAreNames(raw: string, flags: set<Kind>)
    ensures forall name :: name in SectionsOf(raw, flags) ==> name in SECTION_NAMES
    ensures StrictlySorted(SectionsOf(raw, flags))
  {
    hide Requested, Split;
    var requested := Requested(Split(raw, ','));
    RequestedNames(Split(raw, ','));
    SortedDistinctFacts(if requested != [] then requested else LegacySections(flags));
  }

  /** The joined sections, read again under the same flags, are the same sections. */
  lemma SectionsSurvive(raw: string, flags: set<Kind>)
    ensures var sections := SectionsOf(raw, flags);
            SectionsOf(if sections == [] then "" else Join(sections, ','), flags) == sections
  {
    hide Join, LegacySections, Split, SortedDistinct, Requested;
    var sections := SectionsOf(raw, flags);
    SectionsAreNames(raw, flags);
    if sections == [] {
      NoSectionsRequested(raw, flags);
    } else {
      forall name | name in sections ensures ',' !in name { SectionNamesAreStable(name); }
      SplitJoin(sections, ',');
      RequestedKeepsNames(sections);
      SortedDistinctFacts(sections);
      StrictlySortedIsUnique(SortedDistinct(sections), sections);
    }
  }

  lemma NothingRequested()
    ensures Requested(Split("", ',')) == []
  {
    assert Split("", ',') == [""] && Strip("") == "";
    assert Requested([""]) == Requested([""][1..]);
  }

  lemma NoSectionsRequested(raw: string, flags: set<Kind>)
    requires SectionsOf(raw, flags) == []
    ensures SectionsOf("", flags) == []
  {
    hide Requested, Split, LegacySections, SortedDistinct;
    var requested := Requested(Split(raw, ','));
    var chosen := if requested != [] then requested else LegacySections(flags);
    SortedDistinctFacts(chosen);
    NoMembers(chosen);
    NothingRequested();
  }

  lemma TrueReadsTrue()
    ensures Lower(Strip("true")) == "true" && Clean("true")
  {
    hide Strip, Lower;
    PlainName("true");
  }

  lemma ViewsAreStable(view: string)
    requires view in VIEWS
    ensures Lower(Strip(view)) == view && Clean(view)
  {
    hide Strip, Lower;
    PlainName(view);
  }

  /** The rewritten dictionary is writable: only the route's singletons, with clean texts. */
  lemma NormalizedIsWritable(route: Route, n: Normalizers, c: Controls)
    requires ValidNormalizers(n) && ValidRequest(route, n, c)
    requires Writable(route, c)
    ensures Writable(route, Normalized(route, n, c))
  {
    hide Normalized, Clean, NormalValue, ValidRequest;
    forall k | k in Normalized(route, n, c) ensures Applies(route, k) && Clean(Normalized(route, n, c)[k]) {
      NormalLookup(route, n, c, k);
      NormalValueIsClean(route, n, c, k);
    }
  }

  lemma NormalValueIsClean(route: Route, n: Normalizers, c: Controls, k: Kind)
    requires ValidNormalizers(n) && ValidRequest(route, n, c) && Writable(route, c)
    ensures NormalValue(route, n, c, k).Some? ==> Applies(route, k) && Clean(NormalValue(route, n, c, k).value)
  {
    hide Strip, Lower, SectionsOf, Join, Clean;
    ViewsAreStable(NormalView(c));
    TrueReadsTrue();
    if SectionsOf(Raw(c, Sections), FlagsOn(c)) != [] { JoinedSectionsAreClean(Raw(c, Sections), FlagsOn(c)); }
  }

  lemma {:induction false} JoinIsClean(parts: seq<string>)
    requires parts != [] && forall p :: p in parts ==> Clean(p)
    ensures Clean(Join(parts, ','))
  {
    assert Clean(parts[0]);
    if |parts| > 1 {
      JoinIsClean(parts[1..]);
      var rest := Join(parts[1..], ',');
      var whole := Join(parts, ',');
      assert whole == parts[0] + [','] + rest;
      assert whole[0] == parts[0][0] && whole[|whole| - 1] == rest[|rest| - 1];
    }
  }

  lemma JoinedSectionsAreClean(raw: string, flags: set<Kind>)
    requires SectionsOf(raw, flags) != []
    ensures Clean(Join(SectionsOf(raw, flags), ','))
  {
    hide SectionsOf, Strip, Lower, Join;
    SectionsAreNames(raw, flags);
    forall p | p in SectionsOf(raw, flags) ensures Clean(p) { SectionNamesAreStable(p); }
    JoinIsClean(SectionsOf(raw, flags));
  }

  lemma BlankStaysBlank()
    ensures Lower(Strip("")) == ""
  {
  }

  lemma SameView(route: Route, n: Normalizers, c: Controls)
    requires ValidRequest(route, n, c)
    ensures NormalView(Normalized(route, n, c)) == NormalView(c)
  {
    hide Normalized, Strip, Lower, SectionsOf, PricePart, FlagOn, CompactOn;
    NormalLookup(route, n, c, View);
    ViewsAreStable(NormalView(c));
    BlankStaysBlank();
  }

  lemma SameFlags(n: Normalizers, c: Controls)
    requires ValidRequest(Bootstrap, n, c)
    ensures FlagsOn(Normalized(Bootstrap, n, c)) == FlagsOn(c)
    ensures CompactOn(Normalized(Bootstrap, n, c)) == CompactOn(c)
  {
    hide Normalized, Strip, Lower, SectionsOf, PricePart, NormalView;
    TrueReadsTrue();
    NormalLookup(Bootstrap, n, c, Compact);
    forall k | k in FLAGS ensures FlagOn(Normalized(Bootstrap, n, c), k) == FlagOn(c, k) {
      NormalLookup(Bootstrap, n, c, k);
    }
  }

  lemma SamePrices(n: Normalizers, c: Controls)
    requires ValidNormalizers(n) && ValidRequest(Bootstrap, n, c)
    ensures n.prices(PricePart(Normalized(Bootstrap, n, c))) == n.prices(PricePart(c))
  {
    hide Normalized, Strip, Lower, SectionsOf, NormalView, FlagOn, CompactOn;
    var values := n.prices(PricePart(c)).value.values;
    forall k ensures Lookup(PricePart(Normalized(Bootstrap, n, c)), k) == Lookup(values, k) {
      NormalLookup(Bootstrap, n, c, k);
    }
    SameLookups(PricePart(Normalized(Bootstrap, n, c)), values);
  }

  lemma SameSections(n: Normalizers, c: Controls)
    requires ValidRequest(Bootstrap, n, c)
    ensures SectionsOf(Raw(Normalized(Bootstrap, n, c), Sections), FlagsOn(c)) ==
            SectionsOf(Raw(c, Sections), FlagsOn(c))
  {
    hide Normalized, SectionsOf, NormalView, FlagsOn, CompactOn, PricePart, Join;
    NormalLookup(Bootstrap, n, c, Sections);
    SectionsSurvive(Raw(c, Sections), FlagsOn(c));
  }

  /** The normalised dictionary is a valid request with the same hot-cache key. */
  lemma NormalizedHasSameKey(route: Route, n: Normalizers, ticker: string, c: Controls)
    requires ValidNormalizers(n) && ValidRequest(route, n, c)
    ensures ValidRequest(route, n, Normalized(route, n, c))
    ensures HotKeyOf(route, n, ticker, Normalized(route, n, c)) == HotKeyOf(route, n, ticker, c)
  {
    hide Normalized, SectionsOf, NormalView, FlagsOn, CompactOn, PricePart;
    NormalLookup(route, n, c, AsOf);
    SameView(route, n, c);
    if route == Bootstrap {
      SameFlags(n, c);
      SamePrices(n, c);
      SameSections(n, c);
    }
  }

  /** Normalising is idempotent. */
  lemma NormalizedTwice(route: Route, n: Normalizers, c: Controls)
    requires ValidNormalizers(n) && ValidRequest(route, n, c)
    ensures ValidRequest(route, n, Normalized(route, n, c))
    ensures Normalized(route, n, Normalized(route, n, c)) == Normalized(route, n, c)
  {
    hide Normalized, SectionsOf, NormalView, CompactOn, PricePart, ValidRequest, NormalValue;
    NormalizedHasSameKey(route, n, "", c);
    var r := Normalized(route, n, c);
    forall k ensures Lookup(Normalized(route, n, r), k) == Lookup(r, k) {
      NormalLookup(route, n, c, k);
      NormalLookup(route, n, r, k);
      NormalValueTwice(route, n, c, k);
    }
    SameLookups(Normalized(route, n, r), r);
  }

  lemma NormalValueTwice(route: Route, n: Normalizers, c: Controls, k: Kind)
    requires ValidNormalizers(n) && ValidRequest(route, n, c) && ValidRequest(route, n, Normalized(route, n, c))
    ensures NormalValue(route, n, Normalized(route, n, c), k) == NormalValue(route, n, c, k)
  {
    hide Normalized, SectionsOf, NormalView, CompactOn, PricePart;
    var r := Normalized(route, n, c);
    NormalLookup(route, n, c, k);
    SameView(route, n, c);
    if route == Bootstrap {
      SameFlags(n, c);
      SamePrices(n, c);
      SameSections(n, c);
      assert k in FLAGS ==> (k in FlagsOn(r) <==> FlagOn(r, k)) && (k in FlagsOn(c) <==> FlagOn(c, k));
    }
  }

  // ----- the theorems -----

  lemma ReadIsWritable(route: Route, params: seq<Param>)
    ensures Writable(route, ReadControls(route, params))
  {
    hide Strip;
    forall k | k in ReadControls(route, params) ensures Applies(route, k) && Clean(ReadControls(route, params)[k]) {
      var p := ValuesOf(route, params, k)[0];
      assert p in ValuesOf(route, params, k);
      StripTrims(p.value);
    }
  }

  /** The canonical query reads back as the normalised dictionary. */
  lemma CanonicalReadsBack(route: Route, n: Normalizers, params: seq<Param>)
    requires ValidNormalizers(n) && ValidQuery(route, n, params)
    ensures ValidQuery(route, n, Canonical(route, n, params))
    ensures ReadControls(route, Canonical(route, n, params)) == Normalized(route, n, ReadControls(route, params))
  {
    hide Normalized, ReadControls, WithControls, NoDuplicates, ValidRequest, Writable;
    var c := ReadControls(route, params);
    ReadIsWritable(route, params);
    NormalizedIsWritable(route, n, c);
    NormalizedHasSameKey(route, n, "", c);
    ReadBack(route, params, Normalized(route, n, c));
  }

  /** Canonicalising is idempotent. */
  lemma CanonicalIsIdempotent(route: Route, n: Normalizers, params: seq<Param>)
    requires ValidNormalizers(n) && ValidQuery(route, n, params)
    ensures ValidQuery(route, n, Canonical(route, n, params))
    ensures Canonical(route, n, Canonical(route, n, params)) == Canonical(route, n, params)
  {
    hide Normalized, ReadControls, WithControls, NoDuplicates, ValidRequest, Writable;
    var c := ReadControls(route, params);
    CanonicalReadsBack(route, n, params);
    ReadIsWritable(route, params);
    NormalizedIsWritable(route, n, c);
    NormalizedTwice(route, n, c);
    OthersOfCanonical(route, params, Normalized(route, n, c));
    WrittenForgetsOrder(route, Canonical(route, n, params), params, Normalized(route, n, c));
  }

  lemma SingleValuesPermute(a: seq<Param>, b: seq<Param>)
    requires multiset(a) == multiset(b) && |a| <= 1
    ensures a == b
  {
    SameMembers(a, b);
    if a != [] { assert b[0] in b; }
  }

  /** The canonical query does not depend on the order of the parameters. */
  lemma CanonicalForgetsOrder(route: Route, n: Normalizers, params: seq<Param>, other: seq<Param>)
    requires ValidQuery(route, n, params) && multiset(params) == multiset(other)
    ensures ValidQuery(route, n, other)
    ensures Canonical(route, n, other) == Canonical(route, n, params)
  {
    hide Normalized, WithControls, ValidRequest, PassesThrough;
    forall k ensures ValuesOf(route, other, k) == ValuesOf(route, params, k) {
      FilterPermutes((p: Param) => Is(route, p, k), params, other);
      SingleValuesPermute(ValuesOf(route, params, k), ValuesOf(route, other, k));
    }
    SameReading(route, params, other);
    FilterPermutes((p: Param) => PassesThrough(route, p), params, other);
    WrittenForgetsOrder(route, other, params, Normalized(route, n, ReadControls(route, params)));
  }

  lemma SameReading(route: Route, params: seq<Param>, other: seq<Param>)
    requires forall k :: ValuesOf(route, other, k) == ValuesOf(route, params, k)
    ensures ReadControls(route, other) == ReadControls(route, params)
  {
    hide ValuesOf, Strip;
    forall k ensures ReadOne(route, other, k) == ReadOne(route, params, k) {
      assert ValuesOf(route, other, k) == ValuesOf(route, params, k);
    }
  }

  /**
   The two normalisers agree: two valid requests for the same route and ticker with the same canonical query get the
   same hot-cache key.
   */
  lemma SameCanonicalSameKey(route: Route, n: Normalizers, ticker: string, params: seq<Param>, other: seq<Param>)
    requires ValidNormalizers(n) && ValidQuery(route, n, params) && ValidQuery(route, n, other)
    requires Canonical(route, n, params) == Canonical(route, n, other)
    ensures HotKeyOf(route, n, ticker, ReadControls(route, params)) ==
            HotKeyOf(route, n, ticker, ReadControls(route, other))
  {
    hide Normalized, ReadControls, WithControls, NoDuplicates, ValidRequest, Canonical, HotKeyOf;
    CanonicalReadsBack(route, n, params);
    CanonicalReadsBack(route, n, other);
    NormalizedHasSameKey(route, n, ticker, ReadControls(route, params));
    NormalizedHasSameKey(route, n, ticker, ReadControls(route, other));
  }

  /** Different price values have different tokens; `_price_history_cache_token` names every value. */
  ghost predicate FaithfulTokens(n: Normalizers) {
    forall c, d :: n.prices(c).Some? && n.prices(d).Some? && n.prices(c).value.token == n.prices(d).value.token ==>
      n.prices(c).value.values == n.prices(d).value.values
  }

  lemma SameKeySameValue(route: Route, n: Normalizers, ticker: string, a: Controls, b: Controls, k: Kind)
    requires ValidNormalizers(n) && FaithfulTokens(n) && ValidRequest(route, n, a) && ValidRequest(route, n, b)
    requires Writable(route, a) && Writable(route, b)
    requires HotKeyOf(route, n, ticker, a) == HotKeyOf(route, n, ticker, b)
    ensures NormalValue(route, n, a, k) == NormalValue(route, n, b, k)
  {
    hide SectionsOf, NormalView, FlagOn, CompactOn, PricePart, NameOf;
    if k == AsOf {
      SameAsOf(route, n, ticker, a, b);
    } else if k in FLAGS && route == Bootstrap {
      assert k in FlagsOn(a) <==> k in FlagsOn(b);
    }
  }

  lemma SameAsOf(route: Route, n: Normalizers, ticker: string, a: Controls, b: Controls)
    requires ValidNormalizers(n) && ValidRequest(route, n, a) && ValidRequest(route, n, b)
    requires HotKeyOf(route, n, ticker, a) == HotKeyOf(route, n, ticker, b)
    ensures NormalValue(route, n, a, AsOf) == NormalValue(route, n, b, AsOf)
  {
    hide SectionsOf, NormalView, FlagOn, CompactOn, PricePart, NameOf;
    assert AsOf in a ==> n.asOf(a[AsOf]).Some? && n.asOf(a[AsOf]).value != "latest";
    assert AsOf in b ==> n.asOf(b[AsOf]).Some? && n.asOf(b[AsOf]).value != "latest";
  }

  /** Requests for the same route and ticker get the same key if and only if their normalised controls agree. */
  lemma SameKeyExactlyWhenSameControls(
      route: Route, n: Normalizers, ticker: string, params: seq<Param>, other: seq<Param>)
    requires ValidNormalizers(n) && FaithfulTokens(n) && ValidQuery(route, n, params) && ValidQuery(route, n, other)
    ensures HotKeyOf(route, n, ticker, ReadControls(route, params)) ==
            HotKeyOf(route, n, ticker, ReadControls(route, other)) <==>
            Normalized(route, n, ReadControls(route, params)) == Normalized(route, n, ReadControls(route, other))
  {
    hide Normalized, ReadControls, NoDuplicates, ValidRequest, Writable, HotKeyOf, ValidNormalizers, FaithfulTokens,
      NormalValue;
    var a, b := ReadControls(route, params), ReadControls(route, other);
    NormalizedHasSameKey(route, n, ticker, a);
    NormalizedHasSameKey(route, n, ticker, b);
    if HotKeyOf(route, n, ticker, a) == HotKeyOf(route, n, ticker, b) {
      ReadIsWritable(route, params);
      ReadIsWritable(route, other);
      forall k ensures Lookup(Normalized(route, n, a), k) == Lookup(Normalized(route, n, b), k) {
        NormalLookup(route, n, a, k);
        NormalLookup(route, n, b, k);
        SameKeySameValue(route, n, ticker, a, b, k);
      }
      SameLookups(Normalized(route, n, a), Normalized(route, n, b));
    }
  }

  /** The exact extent of a canonical query: the normalised controls, and the pass-through parameters up to order. */
  lemma SameCanonicalExactlyWhen(route: Route, n: Normalizers, params: seq<Param>, other: seq<Param>)
    requires ValidNormalizers(n) && ValidQuery(route, n, params) && ValidQuery(route, n, other)
    ensures Canonical(route, n, params) == Canonical(route, n, other) <==>
            Normalized(route, n, ReadControls(route, params)) == Normalized(route, n, ReadControls(route, other)) &&
            multiset(Others(route, params)) == multiset(Others(route, other))
  {
    hide Normalized, ReadControls, WithControls, NoDuplicates, ValidRequest, Others, Writable;
    var a, b := ReadControls(route, params), ReadControls(route, other);
    ReadIsWritable(route, params);
    ReadIsWritable(route, other);
    NormalizedIsWritable(route, n, a);
    NormalizedIsWritable(route, n, b);
    CanonicalReadsBack(route, n, params);
    CanonicalReadsBack(route, n, other);
    OthersOfCanonical(route, params, Normalized(route, n, a));
    OthersOfCanonical(route, other, Normalized(route, n, b));
    if Normalized(route, n, a) == Normalized(route, n, b) &&
      multiset(Others(route, params)) == multiset(Others(route, other)) {
      WrittenForgetsOrder(route, params, other, Normalized(route, n, a));
    }
  }

  /** What a key leaves out: requests with the same key have the same canonical query exactly when their pass-through
      parameters agree. */
  lemma SameKeySameCanonicalExactlyWhen(
      route: Route, n: Normalizers, ticker: string, params: seq<Param>, other: seq<Param>)
    requires ValidNormalizers(n) && FaithfulTokens(n) && ValidQuery(route, n, params) && ValidQuery(route, n, other)
    requires HotKeyOf(route, n, ticker, ReadControls(route, params)) ==
             HotKeyOf(route, n, ticker, ReadControls(route, other))
    ensures Canonical(route, n, params) == Canonical(route, n, other) <==>
            multiset(Others(route, params)) == multiset(Others(route, other))
  {
    hide Normalized, ReadControls, NoDuplicates, Canonical, ValidRequest, Others, HotKeyOf;
    SameKeyExactlyWhenSameControls(route, n, ticker, params, other);
    SameCanonicalExactlyWhen(route, n, params, other);
  }
}
