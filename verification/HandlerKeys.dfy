/**
 The texts the route handlers store their responses under, against the texts the middleware asks for: financials never
 asks for what is stored, overview exactly for the default price window, and workspace-bootstrap up to spelling and
 repeats.
 */
module HandlerKeys {
  import opened HotCacheKeys
  import opened Ordering
  import opened QueryCanon
  import opened QueryParsers
  import opened Text
  import opened Wrappers

  /** How the framework reads typed query parameters: integers and booleans, from the raw text. */
  datatype Readers = Readers(parsers: Parsers, readInt: string -> Option<int>, readBool: string -> Option<bool>)

  /** Dates are read from clean texts only; where both readers of an integer accept a text, they agree. */
  ghost predicate LawfulReading(r: Readers, text: string) {
    (r.parsers.parseDay(text).Some? ==> Clean(text)) &&
    (r.readInt(text).Some? ==>
      Strip(text) != "" &&
      (r.parsers.parseInt(Strip(text)).Some? ==> r.parsers.parseInt(Strip(text)) == r.readInt(text)))
  }

  ghost predicate ValidReaders(r: Readers) {
    ValidParsers(r.parsers) && forall text :: LawfulReading(r, text)
  }

  function N(r: Readers): Normalizers {
    NormalizersOf(r.parsers)
  }

  // ----- what a handler reads -----

  /** The last value of a parameter, by its name alone. */
  function LastValue(params: seq<Param>, k: Kind): Option<string> {
    var values := ValuesOf(Bootstrap, params, k);
    if values == [] then None else Some(values[|values| - 1].value)
  }

  function HandlerDay(r: Readers, params: seq<Param>, k: Kind): Option<Option<Day>> {
    match LastValue(params, k)
    case None => Some(None)
    case Some(text) =>
      if text == "" then Some(None)
      else match r.parsers.parseDay(text) case None => None case Some(d) => Some(Some(d))
  }

  function HandlerCount(r: Readers, params: seq<Param>, k: Kind, low: int, high: int): Option<Option<int>> {
    match LastValue(params, k)
    case None => Some(None)
    case Some(text) =>
      match r.readInt(text) case None => None case Some(i) => if low <= i <= high then Some(Some(i)) else None
  }

  /** The price window a handler resolves; None is a rejected request. */
  function HandlerWindow(r: Readers, params: seq<Param>): Option<Window> {
    var start, end := HandlerDay(r, params, PriceStart), HandlerDay(r, params, PriceEnd);
    var latest := HandlerCount(r, params, PriceLatest, 1, 20000);
    var points := HandlerCount(r, params, PriceMaxPoints, 2, 5000);
    if start.None? || end.None? || latest.None? || points.None? then None
    else
      var w := Window(start.value, end.value, latest.value, points.value);
      if ValidWindow(w) then Some(w) else None
  }

  const NO_WINDOW := Window(None, None, None, None)

  predicate ReadableBool(r: Readers, params: seq<Param>, k: Kind) {
    LastValue(params, k).Some? ==> r.readBool(LastValue(params, k).value).Some?
  }

  /** The handler answers, and so stores, rather than rejecting a parameter. */
  predicate Accepts(r: Readers, route: Route, params: seq<Param>) {
    HandlerWindow(r, params).Some? &&
    (route == Bootstrap ==> ReadableBool(r, params, Compact) && forall k :: k in FLAGS ==> ReadableBool(r, params, k))
  }

  predicate DayReadable(r: Readers, params: seq<Param>, k: Kind) {
    LastValue(params, k) in {None, Some("")} || r.parsers.parseDay(LastValue(params, k).value).Some?
  }

  predicate CountWithin(r: Readers, params: seq<Param>, k: Kind, low: int, high: int) {
    LastValue(params, k).Some? ==>
      var read := r.readInt(LastValue(params, k).value); read.Some? && read.value >= low && read.value <= high
  }

  /** A handler answers exactly when every parameter it reads can be read, counts are within their bounds, and the
      window does not end before it starts. */
  lemma AcceptsExactlyWhen(r: Readers, route: Route, params: seq<Param>)
    ensures Accepts(r, route, params) <==>
            DayReadable(r, params, PriceStart) && DayReadable(r, params, PriceEnd) &&
            CountWithin(r, params, PriceLatest, 1, 20000) && CountWithin(r, params, PriceMaxPoints, 2, 5000) &&
            (HandlerDay(r, params, PriceStart).value.Some? && HandlerDay(r, params, PriceEnd).value.Some? ==>
              HandlerDay(r, params, PriceStart).value.value <= HandlerDay(r, params, PriceEnd).value.value) &&
            (route == Bootstrap ==>
              forall k :: k in FLAGS + {Compact} && LastValue(params, k).Some? ==>
                r.readBool(LastValue(params, k).value) != None)
  {
    hide LastValue;
    assert Compact in FLAGS + {Compact};
  }

  function HandlerFlags(r: Readers, params: seq<Param>): set<Kind> {
    set k | k in FLAGS && LastValue(params, k).Some? && r.readBool(LastValue(params, k).value) == Some(true)
  }

  /** The known sections asked for, with their repeats, sorted; else those of the legacy flags. */
  function HandlerSections(c: Controls, flags: set<Kind>): seq<string> {
    var requested := Requested(Split(Raw(c, Sections), ','));
    if requested != [] then SortBy(LexLe, requested) else SortedDistinct(LegacySections(flags))
  }

  /** Compared as spelt. */
  predicate HandlerCompact(c: Controls) {
    Compact in c && c[Compact] in TRUE_COMPACT
  }

  /** The handler's ticker also drops dollar signs. */
  function WithoutDollars(ticker: string): string {
    if ticker == "" then ""
    else (if ticker[0] == '$' then "" else [ticker[0]]) + WithoutDollars(ticker[1..])
  }

  // ----- the two texts -----

  function AskedText(r: Readers, route: Route, ticker: string, params: seq<Param>): string
    requires ValidRequest(route, N(r), ReadControls(route, params))
  {
    KeyText(HotKeyOf(route, N(r), ticker, ReadControls(route, params)))
  }

  /** The key of an overview or bootstrap response as its handler stores it. */
  function StoredKey(r: Readers, route: Route, ticker: string, params: seq<Param>): HotKey
    requires ValidRequest(route, N(r), ReadControls(route, params)) && Accepts(r, route, params)
  {
    var c := ReadControls(route, params);
    var asked := HotKeyOf(route, N(r), WithoutDollars(ticker), c);
    var token := WindowToken(r.parsers, HandlerWindow(r, params).value);
    match route
    case Financials => asked
    case Overview => asked.(priceToken := token)
    case Bootstrap =>
      asked.(flags := HandlerFlags(r, params), priceToken := token,
             sections := HandlerSections(c, HandlerFlags(r, params)), compact := HandlerCompact(c))
  }

  /** The text the handler stores under; for financials it carries a price token the asked text has no place for. */
  function StoredText(r: Readers, route: Route, ticker: string, params: seq<Param>): string
    requires ValidRequest(route, N(r), ReadControls(route, params)) && Accepts(r, route, params)
  {
    var k := StoredKey(r, route, ticker, params);
    if route == Financials then
      var token := WindowToken(r.parsers, HandlerWindow(r, params).value);
      TextWith(Financials, k.ticker, k.view, k.asOf, ["prices=" + token])
    else KeyText(k)
  }

  lemma {:induction false} DollarsMatter(ticker: string)
    ensures WithoutDollars(ticker) == ticker <==> '$' !in ticker
    ensures |WithoutDollars(ticker)| <= |ticker|
  {
    if ticker != "" {
      DollarsMatter(ticker[1..]);
      assert ticker == [ticker[0]] + ticker[1..];
    }
  }

  /** With equal views and instants, texts agree exactly when tickers and plain parts do. */
  lemma TextsAgreeExactlyWhen(
      route: Route, t: string, u: string, view: string, asOf: string, p: seq<string>, q: seq<string>)
    requires |p| == |q| && (forall x :: x in p ==> ':' !in x) && forall x :: x in q ==> ':' !in x
    ensures TextWith(route, t, view, asOf, p) == TextWith(route, u, view, asOf, q) <==> t == u && p == q
  {
    hide Tail;
    var middle := "view=" + view + ":" + ("asof=" + asOf);
    if TextWith(route, t, view, asOf, p) == TextWith(route, u, view, asOf, q) {
      assert TextWith(route, t, view, asOf, p) == (Head(route, t) + middle) + Tail(p);
      assert TextWith(route, u, view, asOf, q) == (Head(route, u) + middle) + Tail(q);
      TailsAgree(Head(route, t) + middle, p, Head(route, u) + middle, q);
      SameSuffix(Head(route, t), Head(route, u), middle);
      SameHeadSameTicker(route, t, u);
    }
  }

  lemma SameHeadSameTicker(route: Route, t: string, u: string)
    requires Head(route, t) == Head(route, u)
    ensures t == u
  {
    var name := match route
      case Financials => "financials" case Overview => "overview" case Bootstrap => "workspace_bootstrap";
    assert Head(route, t) == (name + ":") + (t + ":") && Head(route, u) == (name + ":") + (u + ":");
    SamePrefix(name + ":", t + ":", u + ":");
    SameSuffix(t, u, ":");
  }

  lemma DefaultTokenIsNoWindow(p: Parsers, w: Window)
    requires ValidParsers(p)
    ensures WindowToken(p, w) == "default" <==> w == NO_WINDOW
    ensures ':' !in WindowToken(p, w)
  {
    hide TokenParts, ValidParsers, Join;
    TokenIsPlain(p, w);
    PartsArePlain(p, w);
    TokenPartsCount(p, w);
    SplitJoin(TokenParts(p, w), ';');
    SplitPrefix("default", "", ';');
  }

  // ----- overview -----

  /** The middleware asks for the text an overview is stored under exactly when the price window is empty and the ticker
      has no dollar sign. */
  lemma OverviewAsksForStoredExactlyWhen(r: Readers, ticker: string, params: seq<Param>)
    requires ValidReaders(r) && ValidQuery(Overview, N(r), params) && Accepts(r, Overview, params)
    ensures AskedText(r, Overview, ticker, params) == StoredText(r, Overview, ticker, params) <==>
            '$' !in ticker && HandlerWindow(r, params).value == NO_WINDOW
  {
    hide ReadControls, ValidRequest, NormalView, TextWith, NoDuplicates, HandlerWindow, WindowToken, ValidParsers;
    var w := HandlerWindow(r, params).value;
    var k := StoredKey(r, Overview, ticker, params);
    DefaultTokenIsNoWindow(r.parsers, w);
    DollarsMatter(ticker);
    var p, q := ["prices=" + "default"], ["prices=" + WindowToken(r.parsers, w)];
    TextsAgreeExactlyWhen(Overview, ticker, WithoutDollars(ticker), k.view, k.asOf, p, q);
    assert p == q <==> p[0] == q[0];
    if p == q { SamePrefix("prices=", "default", WindowToken(r.parsers, w)); }
  }

  lemma OverviewKeyIsWellFormed(r: Readers, ticker: string, params: seq<Param>)
    requires ValidReaders(r) && ValidQuery(Overview, N(r), params) && Accepts(r, Overview, params)
    ensures WellFormed(StoredKey(r, Overview, ticker, params))
    ensures WellFormed(HotKeyOf(Overview, N(r), ticker, ReadControls(Overview, params)))
  {
    hide ReadControls, NormalView, NoDuplicates, HandlerWindow, WindowToken, ValidParsers;
    SourceNormalizersAreValid(r.parsers);
    DefaultTokenIsNoWindow(r.parsers, HandlerWindow(r, params).value);
    KeyIsWellFormed(Overview, N(r), ticker, ReadControls(Overview, params));
  }

  /** Across requests: what one overview request asks for is what another stored exactly when their controls agree and
      the stored one had no price window, whatever window is asked with. */
  lemma OverviewAsksForOthersExactlyWhen(r: Readers, ticker: string, asking: seq<Param>, stored: seq<Param>)
    requires ValidReaders(r) && '$' !in ticker && ValidQuery(Overview, N(r), asking)
    requires ValidQuery(Overview, N(r), stored) && Accepts(r, Overview, stored)
    ensures AskedText(r, Overview, ticker, asking) == StoredText(r, Overview, ticker, stored) <==>
            Normalized(Overview, N(r), ReadControls(Overview, asking)) ==
            Normalized(Overview, N(r), ReadControls(Overview, stored)) &&
            HandlerWindow(r, stored).value == NO_WINDOW
  {
    hide ReadControls, ValidRequest, NormalView, KeyText, NoDuplicates, HandlerWindow, WindowToken, ValidParsers,
      WellFormed, Normalized;
    SourceNormalizersAreValid(r.parsers);
    DollarsMatter(ticker);
    DefaultTokenIsNoWindow(r.parsers, HandlerWindow(r, stored).value);
    var k := HotKeyOf(Overview, N(r), ticker, ReadControls(Overview, asking));
    var m := StoredKey(r, Overview, ticker, stored);
    WellFormedAsked(r, ticker, asking);
    OverviewKeyIsWellFormed(r, ticker, stored);
    SameKeyExactlyWhenSameControls(Overview, N(r), ticker, asking, stored);
    if KeyText(k) == KeyText(m) { KeyTextIsInjective(k, m); }
  }

  lemma WellFormedAsked(r: Readers, ticker: string, asking: seq<Param>)
    requires ValidReaders(r) && ValidQuery(Overview, N(r), asking)
    ensures WellFormed(HotKeyOf(Overview, N(r), ticker, ReadControls(Overview, asking)))
  {
    hide ReadControls, NormalView, NoDuplicates, ValidParsers;
    SourceNormalizersAreValid(r.parsers);
    KeyIsWellFormed(Overview, N(r), ticker, ReadControls(Overview, asking));
  }

  // ----- financials -----

  function LastPart(text: string): string {
    Split(text, ':')[|Split(text, ':')| - 1]
  }

  lemma LastPartAfter(a: string, b: string)
    ensures LastPart(a + ":" + b) == LastPart(b)
  {
    hide Split;
    SplitAppend(a, b, ':');
    assert a + ":" + b == a + [':'] + b;
  }

  lemma {:induction false} PartsLack(text: string, c: char)
    requires c !in text
    ensures forall part :: part in Split(text, ':') ==> c !in part
  {
    if text != "" {
      PartsLack(text[1..], c);
      var rest := Split(text[1..], ':');
      assert rest[0] in rest && forall x :: x in rest[1..] ==> x in rest;
    }
  }

  /** The last part of an as-of text is not a price part. */
  lemma AsOfEndsWithoutPrices(asOf: string, token: string)
    requires '=' !in asOf && ':' !in token
    ensures LastPart("asof=" + asOf) != LastPart("prices=" + token)
  {
    hide Split;
    var prices := "prices=" + token;
    assert ':' !in prices;
    SplitPrefix(prices, "", ':');
    if ':' !in asOf {
      assert ':' !in "asof=" + asOf;
      SplitPrefix("asof=" + asOf, "", ':');
      assert ("asof=" + asOf)[0] != prices[0];
    } else {
      var i :| 0 <= i < |asOf| && asOf[i] == ':';
      var a, b := asOf[..i], asOf[i + 1..];
      assert asOf == a + ":" + b && "asof=" + asOf == ("asof=" + a) + ":" + b;
      LastPartAfter("asof=" + a, b);
      PartsLack(b, '=');
      assert LastPart(b) in Split(b, ':');
      assert prices[6] == '=';
    }
  }

  lemma AsOfLacksEquals(r: Readers, route: Route, c: Controls)
    requires ValidReaders(r) && ValidRequest(route, N(r), c)
    ensures '=' !in HotKeyOf(route, N(r), "", c).asOf
  {
    hide NormalView, FlagsOn, SectionsOf, PricePart, CompactOn, PriceTexts;
    if AsOf in c { assert LawfulInstant(r.parsers, r.parsers.parseInstant(c[AsOf]).value); }
  }

  lemma TextWithoutParts(route: Route, ticker: string, view: string, asOf: string)
    ensures TextWith(route, ticker, view, asOf, []) == Head(route, ticker) + "view=" + view + ":" + ("asof=" + asOf)
  {
    hide Head;
    assert "asof=" + asOf + Tail([]) == "asof=" + asOf;
  }

  lemma TextWithOnePart(route: Route, ticker: string, view: string, asOf: string, part: string)
    ensures TextWith(route, ticker, view, asOf, [part]) ==
            (Head(route, ticker) + "view=" + view + ":" + "asof=" + asOf) + ":" + part
  {
    hide Head;
    assert Join([part], ':') == part;
    assert Tail([part]) == ":" + part;
  }

  /** What the middleware asks for on the financials route is never what any financials response is stored under. */
  lemma FinancialsNeverAsksForStored(r: Readers, t: string, asking: seq<Param>, u: string, stored: seq<Param>)
    requires ValidReaders(r) && ValidQuery(Financials, N(r), asking)
    requires ValidQuery(Financials, N(r), stored) && Accepts(r, Financials, stored)
    ensures AskedText(r, Financials, t, asking) != StoredText(r, Financials, u, stored)
  {
    hide ReadControls, ValidRequest, NormalView, NoDuplicates, HandlerWindow, WindowToken, ValidReaders, LastPart, Head,
      TextWith;
    assert ValidParsers(r.parsers) by { ReadersHaveParsers(r); }
    var k := HotKeyOf(Financials, N(r), t, ReadControls(Financials, asking));
    var m := StoredKey(r, Financials, u, stored);
    var token := WindowToken(r.parsers, HandlerWindow(r, stored).value);
    DefaultTokenIsNoWindow(r.parsers, HandlerWindow(r, stored).value);
    AsOfLacksEquals(r, Financials, ReadControls(Financials, asking));
    AsOfEndsWithoutPrices(k.asOf, token);
    var x := Head(Financials, t) + "view=" + k.view;
    var y := Head(Financials, m.ticker) + "view=" + m.view + ":" + "asof=" + m.asOf;
    TextWithoutParts(Financials, t, k.view, k.asOf);
    TextWithOnePart(Financials, m.ticker, m.view, m.asOf, "prices=" + token);
    LastPartAfter(x, "asof=" + k.asOf);
    LastPartAfter(y, "prices=" + token);
  }

  lemma ReadersHaveParsers(r: Readers)
    requires ValidReaders(r)
    ensures ValidParsers(r.parsers)
  {
  }

  // ----- workspace-bootstrap -----

  /** A singleton of a valid query is its last value. */
  lemma OnlyValue(params: seq<Param>, k: Kind)
    requires NoDuplicates(Bootstrap, params)
    ensures ReadOne(Bootstrap, params, k) ==
            match LastValue(params, k)
            case None => None
            case Some(text) => if Strip(text) == "" then None else Some(Strip(text))
    ensures (k in ReadControls(Bootstrap, params) <==> ReadOne(Bootstrap, params, k).Some?) &&
            (k in ReadControls(Bootstrap, params) ==>
              ReadControls(Bootstrap, params)[k] == ReadOne(Bootstrap, params, k).value)
  {
    hide ValuesOf, Strip;
    assert |ValuesOf(Bootstrap, params, k)| <= 1;
    AllKindsListed();
  }

  lemma CleanIsStripped(text: string)
    requires Clean(text)
    ensures Strip(text) == text != ""
  {
    StripTrims(text);
  }

  lemma SameDay(r: Readers, params: seq<Param>, k: Kind)
    requires ValidReaders(r) && NoDuplicates(Bootstrap, params) && k in PRICES
    requires HandlerDay(r, params, k).Some?
    ensures ReadDay(r.parsers, PricePart(ReadControls(Bootstrap, params)), k) == HandlerDay(r, params, k)
  {
    hide Strip, ReadControls, ReadOne, NoDuplicates, ValidParsers, LastValue, Clean;
    OnlyValue(params, k);
    if LastValue(params, k).Some? {
      var text := LastValue(params, k).value;
      assert LawfulReading(r, text);
      if text != "" { CleanIsStripped(text); } else { StripOfNothing(); }
    }
  }

  lemma StripOfNothing()
    ensures Strip("") == ""
  {
  }

  lemma SameCount(r: Readers, params: seq<Param>, k: Kind, low: int, high: int)
    requires ValidReaders(r) && NoDuplicates(Bootstrap, params) && k in PRICES
    requires HandlerCount(r, params, k, low, high).Some?
    requires ReadInt(r.parsers, PricePart(ReadControls(Bootstrap, params)), k).Some?
    ensures ReadInt(r.parsers, PricePart(ReadControls(Bootstrap, params)), k) == HandlerCount(r, params, k, low, high)
  {
    hide Strip, ReadControls, ReadOne, NoDuplicates, ValidParsers, LastValue;
    OnlyValue(params, k);
    if LastValue(params, k).Some? { assert LawfulReading(r, LastValue(params, k).value); }
  }

  /** Where the middleware and the handler both accept the price window, they resolve the same one. */
  lemma SameWindow(r: Readers, params: seq<Param>)
    requires ValidReaders(r) && ValidQuery(Bootstrap, N(r), params) && HandlerWindow(r, params).Some?
    ensures ReadWindow(r.parsers, PricePart(ReadControls(Bootstrap, params))) == HandlerWindow(r, params)
  {
    hide ReadControls, NoDuplicates, ValidReaders, HandlerDay, HandlerCount, ReadDay, ReadInt, PricePart, NormalView;
    SameDay(r, params, PriceStart);
    SameDay(r, params, PriceEnd);
    SameCount(r, params, PriceLatest, 1, 20000);
    SameCount(r, params, PriceMaxPoints, 2, 5000);
  }

  /** The keys asked for and stored differ at most in ticker, flags, sections and compact. */
  lemma BootstrapKeys(r: Readers, ticker: string, params: seq<Param>)
    requires ValidReaders(r) && ValidQuery(Bootstrap, N(r), params) && Accepts(r, Bootstrap, params)
    ensures var c := ReadControls(Bootstrap, params);
            var k := HotKeyOf(Bootstrap, N(r), ticker, c);
            StoredKey(r, Bootstrap, ticker, params) ==
            k.(ticker := WithoutDollars(ticker), flags := HandlerFlags(r, params),
               sections := HandlerSections(c, HandlerFlags(r, params)), compact := HandlerCompact(c))
    ensures WellFormed(HotKeyOf(Bootstrap, N(r), ticker, ReadControls(Bootstrap, params)))
    ensures WellFormed(StoredKey(r, Bootstrap, ticker, params))
  {
    hide ReadControls, NoDuplicates, ValidParsers, HandlerWindow, WindowToken, ReadWindow, PricePart, NormalView,
      Requested, SortBy, FlagsOn, CompactOn, SectionsOf, ValidReaders;
    assert ValidParsers(r.parsers) by { ReadersHaveParsers(r); }
    var c := ReadControls(Bootstrap, params);
    SameWindow(r, params);
    SourceNormalizersAreValid(r.parsers);
    KeyIsWellFormed(Bootstrap, N(r), ticker, c);
    hide HandlerSections;
    HandlerSectionsAreNames(c, HandlerFlags(r, params));
  }

  lemma HandlerSectionsAreNames(c: Controls, flags: set<Kind>)
    ensures forall name :: name in HandlerSections(c, flags) ==> name in SECTION_NAMES
  {
    hide SortBy, SortedDistinct, Requested, Split;
    var requested := Requested(Split(Raw(c, Sections), ','));
    RequestedNames(Split(Raw(c, Sections), ','));
    SortMembers(LexLe, requested);
    SortedDistinctFacts(LegacySections(flags));
  }

  lemma SameSectionsExactlyWhen(c: Controls, flags: set<Kind>)
    ensures HandlerSections(c, flags) == SectionsOf(Raw(c, Sections), flags) <==>
            Distinct(Requested(Split(Raw(c, Sections), ',')))
  {
    hide SortBy, SortedDistinct, Requested, Split, LegacySections;
    SortedWithRepeatsExactlyWhen(Requested(Split(Raw(c, Sections), ',')));
  }

  /** A flag's text that is true for the framework exactly when it is true for the middleware. */
  predicate ReadAlike(r: Readers, text: string) {
    r.readBool(text) == Some(true) <==> Lower(Strip(text)) in TRUE_FLAGS
  }

  predicate FlagsReadAlike(r: Readers, params: seq<Param>) {
    forall k :: k in FLAGS && LastValue(params, k).Some? ==> ReadAlike(r, LastValue(params, k).value)
  }

  lemma SameFlagExactlyWhen(r: Readers, params: seq<Param>, k: Kind)
    requires NoDuplicates(Bootstrap, params) && k in FLAGS
    ensures (k in HandlerFlags(r, params) <==> k in FlagsOn(ReadControls(Bootstrap, params))) <==>
            (LastValue(params, k).Some? ==> ReadAlike(r, LastValue(params, k).value))
  {
    hide Strip, Lower, ReadControls, ReadOne, NoDuplicates, LastValue;
    OnlyValue(params, k);
    if LastValue(params, k).Some? { BlankIsOff(LastValue(params, k).value); }
  }

  lemma BlankIsOff(text: string)
    ensures Strip(Strip(text)) == Strip(text)
    ensures Strip(text) == "" ==> Lower(Strip(text)) !in TRUE_FLAGS
  {
    hide Strip;
    StripTrims(text);
    StripTrims(Strip(text));
  }

  lemma SameFlagsExactlyWhen(r: Readers, params: seq<Param>)
    requires NoDuplicates(Bootstrap, params)
    ensures HandlerFlags(r, params) == FlagsOn(ReadControls(Bootstrap, params)) <==> FlagsReadAlike(r, params)
  {
    var c := ReadControls(Bootstrap, params);
    assert HandlerFlags(r, params) <= FLAGS && FlagsOn(c) <= FLAGS;
    hide ReadAlike, ReadControls, NoDuplicates, LastValue, HandlerFlags, FlagsOn;
    forall k | k in FLAGS
      ensures (k in HandlerFlags(r, params) <==> k in FlagsOn(c)) <==>
              (LastValue(params, k).Some? ==> ReadAlike(r, LastValue(params, k).value))
    {
      SameFlagExactlyWhen(r, params, k);
    }
  }

  /** Nothing but spelling: a ticker without dollar signs, flags both sides read alike, a compact in lower case, and no
      section asked for twice. */
  ghost predicate PlainlySpelt(r: Readers, ticker: string, params: seq<Param>) {
    var c := ReadControls(Bootstrap, params);
    '$' !in ticker && FlagsReadAlike(r, params) && (CompactOn(c) ==> c[Compact] in TRUE_COMPACT) &&
    Distinct(Requested(Split(Raw(c, Sections), ',')))
  }

  /** The middleware asks for the text a bootstrap response is stored under exactly when the request is plainly
      spelt. */
  lemma BootstrapAsksForStoredExactlyWhen(r: Readers, ticker: string, params: seq<Param>)
    requires ValidReaders(r) && ValidQuery(Bootstrap, N(r), params) && Accepts(r, Bootstrap, params)
    ensures AskedText(r, Bootstrap, ticker, params) == StoredText(r, Bootstrap, ticker, params) <==>
            PlainlySpelt(r, ticker, params)
  {
    hide ReadControls, ValidRequest, NormalView, NoDuplicates, HandlerWindow, WindowToken, ValidReaders, WellFormed,
      TailParts, TextWith, StoredKey, HandlerSections, SectionsOf, FlagsOn, CompactOn, HandlerCompact, HandlerFlags,
      WithoutDollars, Requested, Split, Accepts, FlagsReadAlike;
    var c := ReadControls(Bootstrap, params);
    var k, m := HotKeyOf(Bootstrap, N(r), ticker, c), StoredKey(r, Bootstrap, ticker, params);
    BootstrapKeys(r, ticker, params);
    TailPartsArePlain(k);
    TailPartsArePlain(m);
    TailPartsCount(k, m);
    TextsAgreeExactlyWhen(Bootstrap, ticker, m.ticker, k.view, k.asOf, TailParts(k), TailParts(m));
    DollarsMatter(ticker);
    SameFlagsExactlyWhen(r, params);
    SameCompactExactlyWhen(c);
    SameSectionsExactlyWhen(c, FlagsOn(c));
    if TailParts(k) == TailParts(m) {
      SameTail(k, m);
    } else if k == m {
      assert false;
    }
  }

  lemma SameCompactExactlyWhen(c: Controls)
    ensures HandlerCompact(c) == CompactOn(c) <==> (CompactOn(c) ==> c[Compact] in TRUE_COMPACT)
  {
    if Compact in c && c[Compact] in TRUE_COMPACT { TrueTextsAreNormal(c[Compact]); }
  }

  lemma TrueTextsAreNormal(text: string)
    requires text in TRUE_COMPACT
    ensures Lower(Strip(text)) == text
  {
    hide Lower, Strip;
    StripTrims(text);
    LowerKeepsLower(text);
  }

  // ----- an instance -----

  const LATEST_FIVE: seq<Param> := [Param("price_latest_n", "5")]

  /**
   Concretely: an overview asked with the five latest prices asks for what the overview without a window is stored
   under, although the two are stored under different texts and have different canonical queries.
   */
  lemma OverviewConfusesWindows(r: Readers)
    requires ValidReaders(r) && r.readInt("5") == Some(5)
    ensures ValidQuery(Overview, N(r), []) && ValidQuery(Overview, N(r), LATEST_FIVE)
    ensures Accepts(r, Overview, []) && Accepts(r, Overview, LATEST_FIVE)
    ensures AskedText(r, Overview, "AAPL", LATEST_FIVE) == StoredText(r, Overview, "AAPL", [])
    ensures StoredText(r, Overview, "AAPL", LATEST_FIVE) != StoredText(r, Overview, "AAPL", [])
    ensures Canonical(Overview, N(r), LATEST_FIVE) != Canonical(Overview, N(r), [])
  {
    hide ValidReaders, KeyText, HotKeyOf, StoredKey, Canonical, TextWith, Normalized;
    ReadersHaveParsers(r);
    SourceNormalizersAreValid(r.parsers);
    ExampleControls();
    ExampleWindows(r);
    OverviewAsksForOthersExactlyWhen(r, "AAPL", LATEST_FIVE, []);
    OverviewAsksForOthersExactlyWhen(r, "AAPL", LATEST_FIVE, LATEST_FIVE);
    OverviewAsksForOthersExactlyWhen(r, "AAPL", [], []);
    SameCanonicalExactlyWhen(Overview, N(r), LATEST_FIVE, []);
  }

  /** The price parameter is none of an overview's controls: it passes through. */
  lemma ExampleControls()
    ensures ReadControls(Overview, []) == map[] && ReadControls(Overview, LATEST_FIVE) == map[]
    ensures NoDuplicates(Overview, []) && NoDuplicates(Overview, LATEST_FIVE) && NormalView(map[]) == "full"
    ensures multiset(Others(Overview, LATEST_FIVE)) != multiset(Others(Overview, []))
  {
    forall k ensures ValuesOf(Overview, [], k) == [] && ValuesOf(Overview, LATEST_FIVE, k) == [] {
      ExampleHasNo(k);
    }
    assert PassesThrough(Overview, LATEST_FIVE[0]) by {
      forall i | 0 <= i < |ALL_KINDS| ensures !Is(Overview, LATEST_FIVE[0], ALL_KINDS[i]) {
        ExampleHasNo(ALL_KINDS[i]);
      }
    }
    hide PassesThrough;
    assert LATEST_FIVE[0] in Others(Overview, LATEST_FIVE);
    assert LATEST_FIVE[0] in multiset(Others(Overview, LATEST_FIVE));
  }

  lemma ExampleHasNo(k: Kind)
    ensures ValuesOf(Overview, [], k) == [] && ValuesOf(Overview, LATEST_FIVE, k) == []
    ensures !Is(Overview, LATEST_FIVE[0], k)
  {
  }

  lemma ExampleWindows(r: Readers)
    requires r.readInt("5") == Some(5)
    ensures HandlerWindow(r, []) == Some(NO_WINDOW)
    ensures HandlerWindow(r, LATEST_FIVE) == Some(NO_WINDOW.(latest := Some(5)))
  {
    hide ValuesOf;
    forall k | k in PRICES
      ensures LastValue([], k) == None && LastValue(LATEST_FIVE, k) == if k == PriceLatest then Some("5") else None
    {
      ExampleValue(k);
    }
  }

  lemma ExampleValue(k: Kind)
    requires k in PRICES
    ensures LastValue([], k) == None && LastValue(LATEST_FIVE, k) == if k == PriceLatest then Some("5") else None
  {
    OnlyLatestIsNamedSo(k);
  }

  lemma OnlyLatestIsNamedSo(k: Kind)
    ensures NameOf(Bootstrap, k) == "price_latest_n" ==> k == PriceLatest
  {
    if NameOf(Bootstrap, k) == NameOf(Bootstrap, PriceLatest) { NamesDiffer(Bootstrap, k, PriceLatest); }
  }
}
