/**
 What a company request asks for, read off its parameters: an instant, a view and, for workspace-bootstrap, flags, a
 price window, sections and compactness. Requests share a hot-cache key exactly when they ask for the same, and a
 canonical query exactly when they also pass the same parameters through.
 */
module QueryMeaning {
  import opened HotCacheKeys
  import opened Ordering
  import opened QueryCanon
  import opened QueryParsers
  import opened Text
  import opened Wrappers

  datatype Wish = Wish(
    instant: Option<Instant>, view: string, flags: set<Kind>, window: Option<Window>, sections: set<string>,
    compact: bool)

  /** The instant a request is about; none is the latest. */
  function InstantOf(p: Parsers, c: Controls): Option<Instant> {
    if AsOf in c then p.parseInstant(c[AsOf]) else None
  }

  /** The parameter is given, and is one of these words in any case. */
  predicate Says(c: Controls, k: Kind, words: set<string>) {
    k in c && Lower(c[k]) in words
  }

  function NamesIn(text: string): set<string> {
    set part | part in Split(text, ',') && Lower(Strip(part)) in SECTION_NAMES :: Lower(Strip(part))
  }

  /** The sections named, or when no known one is, those the flags stand for. */
  function SectionsAsked(c: Controls, flags: set<Kind>): set<string> {
    var named := if Sections in c then NamesIn(c[Sections]) else {};
    if named != {} then named
    else
      (if IncludeOverviewBrief in flags then {"company_summary", "recent_filings", "recent_events"} else {}) +
      (if IncludeInsiders in flags || IncludeInstitutional in flags then {"ownership_summary"} else {}) +
      (if IncludeEarningsSummary in flags then {"recent_events"} else {})
  }

  function FlagsAsked(c: Controls): set<Kind> {
    set k | k in FLAGS && Says(c, k, {"1", "true", "yes", "on"})
  }

  function WishOf(p: Parsers, route: Route, c: Controls): Wish {
    var view := if View in c then Lower(c[View]) else "full";
    if route != Bootstrap then Wish(InstantOf(p, c), view, {}, None, {}, false)
    else
      Wish(InstantOf(p, c), view, FlagsAsked(c), ReadWindow(p, PricePart(c)), SectionsAsked(c, FlagsAsked(c)),
           Says(c, Compact, {"1", "true", "yes"}))
  }

  // ----- part by part -----

  /** The as-of texts of two requests agree exactly when their instants do. */
  lemma AsOfNamesInstant(p: Parsers, a: string, b: string)
    requires ValidParsers(p)
    ensures NormalizersOf(p).asOf(a) == NormalizersOf(p).asOf(b) <==> p.parseInstant(a) == p.parseInstant(b)
  {
    if p.parseInstant(a).Some? { assert LawfulInstant(p, p.parseInstant(a).value); }
    if p.parseInstant(b).Some? { assert LawfulInstant(p, p.parseInstant(b).value); }
  }

  function AsOfPart(p: Parsers, c: Controls): string
    requires AsOf in c ==> NormalizersOf(p).asOf(c[AsOf]).Some?
  {
    if AsOf in c then NormalizersOf(p).asOf(c[AsOf]).value else "latest"
  }

  lemma SameAsOfExactlyWhen(p: Parsers, a: Controls, b: Controls)
    requires ValidParsers(p)
    requires AsOf in a ==> NormalizersOf(p).asOf(a[AsOf]).Some?
    requires AsOf in b ==> NormalizersOf(p).asOf(b[AsOf]).Some?
    ensures AsOfPart(p, a) == AsOfPart(p, b) <==> InstantOf(p, a) == InstantOf(p, b)
  {
    if AsOf in a { assert LawfulInstant(p, p.parseInstant(a[AsOf]).value); }
    if AsOf in b { assert LawfulInstant(p, p.parseInstant(b[AsOf]).value); }
  }

  lemma SameTokenExactlyWhen(p: Parsers, w: Window, v: Window)
    requires ValidParsers(p) && ValidWindow(w) && ValidWindow(v)
    ensures WindowToken(p, w) == WindowToken(p, v) <==> w == v
  {
    hide WindowToken, WriteWindow, ReadWindow, ValidParsers;
    if WindowToken(p, w) == WindowToken(p, v) {
      TokenNamesWindow(p, w, v);
      ReadWritten(p, w);
      ReadWritten(p, v);
    }
  }

  lemma {:induction false} RequestedNamesAsked(parts: seq<string>)
    ensures forall y :: y in Requested(parts) <==>
              y in SECTION_NAMES && exists part :: part in parts && Lower(Strip(part)) == y
  {
    hide Lower, Strip;
    if parts != [] {
      RequestedNamesAsked(parts[1..]);
      BlankIsNoName(parts[0]);
      forall y
        ensures y in Requested(parts) <==>
                y in SECTION_NAMES && exists part :: part in parts && Lower(Strip(part)) == y
      {
        assert forall part :: part in parts <==> part == parts[0] || part in parts[1..];
      }
    }
  }

  lemma BlankIsNoName(part: string)
    ensures Strip(part) == "" ==> Lower(Strip(part)) !in SECTION_NAMES
  {
    hide Strip;
  }

  lemma SectionsAreThoseAsked(c: Controls, flags: set<Kind>)
    ensures forall y :: y in SectionsOf(Raw(c, Sections), flags) <==> y in SectionsAsked(c, flags)
    ensures StrictlySorted(SectionsOf(Raw(c, Sections), flags))
  {
    hide Lower, Strip, Split, SortedDistinct, Requested, LexLe;
    var requested := Requested(Split(Raw(c, Sections), ','));
    RequestedNamesAsked(Split(Raw(c, Sections), ','));
    assert Split("", ',') == [""] && Strip("") == "" by { NothingToSplit(); }
    BlankIsNoName("");
    var named := if Sections in c then NamesIn(c[Sections]) else {};
    forall y ensures y in named <==> y in requested {
    }
    if requested != [] { assert requested[0] in named; }
    SortedDistinctFacts(if requested != [] then requested else LegacySections(flags));
  }

  lemma NothingToSplit()
    ensures Split("", ',') == [""] && Strip("") == ""
  {
  }

  lemma SameSectionsExactlyWhen(a: Controls, b: Controls, f: set<Kind>, g: set<Kind>)
    ensures SectionsOf(Raw(a, Sections), f) == SectionsOf(Raw(b, Sections), g) <==>
            SectionsAsked(a, f) == SectionsAsked(b, g)
  {
    hide SectionsOf, SectionsAsked, LexLe;
    SectionsAreThoseAsked(a, f);
    SectionsAreThoseAsked(b, g);
    if SectionsAsked(a, f) == SectionsAsked(b, g) {
      StrictlySortedIsUnique(SectionsOf(Raw(a, Sections), f), SectionsOf(Raw(b, Sections), g));
    }
  }

  // ----- whole requests -----

  lemma LowerKeepsLength(text: string)
    ensures |Lower(text)| == |text|
  {
  }

  /** The key of a request, part by part. */
  lemma KeyByParts(p: Parsers, route: Route, ticker: string, c: Controls)
    requires ValidRequest(route, NormalizersOf(p), c) && Writable(route, c)
    ensures var (k, w) := (HotKeyOf(route, NormalizersOf(p), ticker, c), WishOf(p, route, c));
            k.route == route && k.ticker == ticker && k.view == w.view && k.asOf == AsOfPart(p, c) &&
            k.flags == w.flags && k.compact == w.compact
    ensures var (k, w) := (HotKeyOf(route, NormalizersOf(p), ticker, c), WishOf(p, route, c));
            route == Bootstrap ==>
              w.window.Some? && ValidWindow(w.window.value) && k.priceToken == WindowToken(p, w.window.value) &&
              k.sections == SectionsOf(Raw(c, Sections), w.flags) && w.sections == SectionsAsked(c, w.flags)
  {
    hide Lower, Strip, SectionsOf, SectionsAsked, WindowToken, ReadWindow, PricePart, NameOf;
    forall k | k in c ensures Strip(c[k]) == c[k] != "" { StripTrims(c[k]); }
    if View in c { LowerKeepsLength(c[View]); }
    NothingToSplit();
    assert Lower("") == "" by { LowerKeepsLength(""); }
    assert FlagsOn(c) == FlagsAsked(c);
    if route == Bootstrap { ReadsValid(p, PricePart(c)); }
  }

  /** Two valid requests for one route and ticker ask for the same key text if and only if they ask for the same. */
  lemma SameTextExactlyWhenSameWish(
      p: Parsers, route: Route, ticker: string, params: seq<Param>, other: seq<Param>)
    requires ValidParsers(p)
    requires ValidQuery(route, NormalizersOf(p), params) && ValidQuery(route, NormalizersOf(p), other)
    ensures KeyText(HotKeyOf(route, NormalizersOf(p), ticker, ReadControls(route, params))) ==
            KeyText(HotKeyOf(route, NormalizersOf(p), ticker, ReadControls(route, other))) <==>
            WishOf(p, route, ReadControls(route, params)) == WishOf(p, route, ReadControls(route, other))
  {
    hide ValidParsers, ReadControls, NoDuplicates, ValidRequest, KeyText, HotKeyOf, WishOf, Normalized, Writable;
    SourceNormalizersAreValid(p);
    SameTextExactlyWhenSameControls(route, NormalizersOf(p), ticker, params, other);
    SameKeyExactlyWhenSameControls(route, NormalizersOf(p), ticker, params, other);
    ReadIsWritable(route, params);
    ReadIsWritable(route, other);
    SameKeyExactlyWhenSameWish(p, route, ticker, ReadControls(route, params), ReadControls(route, other));
  }

  lemma SameKeyExactlyWhenSameWish(p: Parsers, route: Route, ticker: string, a: Controls, b: Controls)
    requires ValidParsers(p) && Writable(route, a) && Writable(route, b)
    requires ValidRequest(route, NormalizersOf(p), a) && ValidRequest(route, NormalizersOf(p), b)
    ensures HotKeyOf(route, NormalizersOf(p), ticker, a) == HotKeyOf(route, NormalizersOf(p), ticker, b) <==>
            WishOf(p, route, a) == WishOf(p, route, b)
  {
    hide ValidParsers, Writable, NormalView, FlagsOn, CompactOn, PricePart, SectionsOf, SectionsAsked, FlagsAsked, Says,
      AsOfPart, WindowToken, ReadWindow, ValidWindow;
    KeyByParts(p, route, ticker, a);
    KeyByParts(p, route, ticker, b);
    SameAsOfExactlyWhen(p, a, b);
    if route == Bootstrap {
      var v, w := WishOf(p, route, a), WishOf(p, route, b);
      SameTokenExactlyWhen(p, v.window.value, w.window.value);
      SameSectionsExactlyWhen(a, b, v.flags, w.flags);
    }
  }

  /** They have the same canonical query if and only if they also pass the same parameters through. */
  lemma SameCanonicalExactlyWhenSameWish(p: Parsers, route: Route, params: seq<Param>, other: seq<Param>)
    requires ValidParsers(p)
    requires ValidQuery(route, NormalizersOf(p), params) && ValidQuery(route, NormalizersOf(p), other)
    ensures Canonical(route, NormalizersOf(p), params) == Canonical(route, NormalizersOf(p), other) <==>
            WishOf(p, route, ReadControls(route, params)) == WishOf(p, route, ReadControls(route, other)) &&
            multiset(Others(route, params)) == multiset(Others(route, other))
  {
    hide ValidParsers, ReadControls, NoDuplicates, ValidRequest, KeyText, HotKeyOf, WishOf, Normalized, Canonical,
      Others;
    SourceNormalizersAreValid(p);
    SameCanonicalExactlyWhen(route, NormalizersOf(p), params, other);
    SameTextExactlyWhenSameControls(route, NormalizersOf(p), "", params, other);
    SameTextExactlyWhenSameWish(p, route, "", params, other);
  }

  /** Requests alike in all but the as-of parameter share both exactly when their instants agree. */
  lemma InstantDecides(p: Parsers, route: Route, ticker: string, params: seq<Param>, other: seq<Param>)
    requires ValidParsers(p)
    requires ValidQuery(route, NormalizersOf(p), params) && ValidQuery(route, NormalizersOf(p), other)
    requires ReadControls(route, params) - {AsOf} == ReadControls(route, other) - {AsOf}
    requires multiset(Others(route, params)) == multiset(Others(route, other))
    ensures Canonical(route, NormalizersOf(p), params) == Canonical(route, NormalizersOf(p), other) <==>
            InstantOf(p, ReadControls(route, params)) == InstantOf(p, ReadControls(route, other))
    ensures KeyText(HotKeyOf(route, NormalizersOf(p), ticker, ReadControls(route, params))) ==
            KeyText(HotKeyOf(route, NormalizersOf(p), ticker, ReadControls(route, other))) <==>
            InstantOf(p, ReadControls(route, params)) == InstantOf(p, ReadControls(route, other))
  {
    hide ValidParsers, ReadControls, NoDuplicates, ValidRequest, KeyText, HotKeyOf, Canonical, Others, WishOf;
    SameTextExactlyWhenSameWish(p, route, ticker, params, other);
    SameCanonicalExactlyWhenSameWish(p, route, params, other);
    AlikeButForAsOf(p, route, ReadControls(route, params), ReadControls(route, other));
  }

  lemma AlikeButForAsOf(p: Parsers, route: Route, a: Controls, b: Controls)
    requires a - {AsOf} == b - {AsOf}
    ensures WishOf(p, route, a) == WishOf(p, route, b) <==> InstantOf(p, a) == InstantOf(p, b)
  {
    hide ReadWindow, InstantOf, Lower, NamesIn;
    forall k | k != AsOf ensures k in a <==> k in b ensures k in a ==> a[k] == b[k] {
      assert k in a <==> k in a - {AsOf};
      assert k in b <==> k in b - {AsOf};
      assert k in a ==> a[k] == (a - {AsOf})[k];
    }
    assert PricePart(a) == PricePart(b);
    assert FlagsAsked(a) == FlagsAsked(b);
  }

  // ----- which requests are valid -----

  /** The price parameters can be read, and make sense together. */
  predicate PricesReadable(p: Parsers, c: Controls) {
    (PriceStart in c ==> p.parseDay(c[PriceStart]).Some?) && (PriceEnd in c ==> p.parseDay(c[PriceEnd]).Some?) &&
    (PriceStart in c && PriceEnd in c ==> p.parseDay(c[PriceStart]).value <= p.parseDay(c[PriceEnd]).value) &&
    (PriceLatest in c ==> p.parseInt(c[PriceLatest]).Some? && p.parseInt(c[PriceLatest]).value >= 1) &&
    (PriceMaxPoints in c ==> p.parseInt(c[PriceMaxPoints]).Some? && p.parseInt(c[PriceMaxPoints]).value >= 2)
  }

  /** A request is valid exactly when its instant can be read, its view is one of three in any case, and, for
      workspace-bootstrap, its prices can be read. */
  lemma ValidExactlyWhen(p: Parsers, route: Route, c: Controls)
    requires Writable(route, c)
    ensures ValidRequest(route, NormalizersOf(p), c) <==>
            (AsOf in c ==> p.parseInstant(c[AsOf]).Some?) &&
            (View in c ==> Lower(c[View]) in {"full", "core_segments", "core"}) &&
            (route == Bootstrap ==> PricesReadable(p, c))
  {
    hide ReadWindow, PricesReadable, NormalView, Writable;
    WindowIsRead(p, c);
    ViewIsRead(route, c);
  }

  lemma WindowIsRead(p: Parsers, c: Controls)
    ensures ReadWindow(p, PricePart(c)).Some? <==> PricesReadable(p, c)
  {
    hide PricePart;
    assert forall k :: k in PRICES ==> (k in PricePart(c) <==> k in c) && (k in c ==> PricePart(c)[k] == c[k]) by {
      PricesKept(c);
    }
  }

  lemma PricesKept(c: Controls)
    ensures forall k :: k in PRICES ==> (k in PricePart(c) <==> k in c) && (k in c ==> PricePart(c)[k] == c[k])
  {
  }

  lemma ViewIsRead(route: Route, c: Controls)
    requires Writable(route, c)
    ensures NormalView(c) in VIEWS <==> (View in c ==> Lower(c[View]) in {"full", "core_segments", "core"})
  {
    hide Lower, Strip, NameOf;
    NothingToSplit();
    assert Lower("") == "" by { LowerKeepsLength(""); }
    if View in c {
      StripTrims(c[View]);
      LowerKeepsLength(c[View]);
    }
  }

  /** A canonical query is in ascending order of names, and of values under one name. */
  lemma CanonicalIsSorted(route: Route, n: Normalizers, params: seq<Param>, i: nat, j: nat)
    requires ValidRequest(route, n, ReadControls(route, params))
    requires i < j < |Canonical(route, n, params)|
    ensures var (a, b) := (Canonical(route, n, params)[i], Canonical(route, n, params)[j]);
            LexLe(a.name, b.name) && (a.name == b.name ==> LexLe(a.value, b.value))
  {
    hide ValidRequest, Normalized, ReadControls, LexLe;
    ParamOrder();
    var written := ItemsFrom(route, Normalized(route, n, ReadControls(route, params)), ALL_KINDS);
    SortSorts(ParamLe, Others(route, params) + written);
    var (a, b) := (Canonical(route, n, params)[i], Canonical(route, n, params)[j]);
    assert ParamLe(a, b);
    LexTotal(a.name, a.name);
  }

  // ----- on the wire -----

  /** The parts of a bootstrap key after its instant, as they are written. */
  lemma BootstrapParts(k: HotKey)
    requires k.route == Bootstrap
    ensures |TailParts(k)| == 7
    ensures TailParts(k)[0] == if IncludeOverviewBrief in k.flags then "overview=1" else "overview=0"
    ensures TailParts(k)[1] == if IncludeInsiders in k.flags then "insiders=1" else "insiders=0"
    ensures TailParts(k)[2] == if IncludeInstitutional in k.flags then "institutional=1" else "institutional=0"
    ensures TailParts(k)[3] == if IncludeEarningsSummary in k.flags then "earnings=1" else "earnings=0"
    ensures TailParts(k)[4] == "prices=" + k.priceToken
    ensures TailParts(k)[5] == if k.sections == [] then "sections=all" else "sections=" + Join(k.sections, ',')
    ensures TailParts(k)[6] == if k.compact then "compact=1" else "compact=0"
  {
    hide Join;
  }

  /** The price window of a request that spells out all four price parameters is read as given. */
  lemma WindowOfRequest(p: Parsers, d: Day, e: Day, latest: int, points: int)
    requires ValidParsers(p) && d <= e && latest >= 1 && points >= 2
    ensures var params := [Param("price_start_date", p.printDay(d)), Param("price_end_date", p.printDay(e)),
                           Param("price_latest_n", p.printInt(latest)), Param("price_max_points", p.printInt(points))];
            WishOf(p, Bootstrap, ReadControls(Bootstrap, params)).window ==
            Some(Window(Some(d), Some(e), Some(latest), Some(points)))
  {
    hide ReadControls, ReadWindow, ValidParsers, LawfulDay, LawfulInt, PricePart;
    var params := [Param("price_start_date", p.printDay(d)), Param("price_end_date", p.printDay(e)),
                   Param("price_latest_n", p.printInt(latest)), Param("price_max_points", p.printInt(points))];
    LawsOf(p, d, e, latest, points);
    PrintedTextsAreClean(p, d, e, latest, points);
    OnlyOne(params, 0, PriceStart);
    OnlyOne(params, 1, PriceEnd);
    OnlyOne(params, 2, PriceLatest);
    OnlyOne(params, 3, PriceMaxPoints);
    WindowOfControls(p, ReadControls(Bootstrap, params), d, e, latest, points);
  }

  lemma LawsOf(p: Parsers, d: Day, e: Day, latest: int, points: int)
    requires ValidParsers(p)
    ensures LawfulDay(p, d) && LawfulDay(p, e) && LawfulInt(p, latest) && LawfulInt(p, points)
  {
    hide LawfulDay, LawfulInt;
  }

  lemma PrintedTextsAreClean(p: Parsers, d: Day, e: Day, latest: int, points: int)
    requires LawfulDay(p, d) && LawfulDay(p, e) && LawfulInt(p, latest) && LawfulInt(p, points)
    ensures Clean(p.printDay(d)) && Clean(p.printDay(e)) && Clean(p.printInt(latest)) && Clean(p.printInt(points))
  {
    hide Clean;
  }

  lemma WindowOfControls(p: Parsers, c: Controls, d: Day, e: Day, latest: int, points: int)
    requires LawfulDay(p, d) && LawfulDay(p, e) && LawfulInt(p, latest) && LawfulInt(p, points)
    requires d <= e && latest >= 1 && points >= 2 && PRICES <= c.Keys
    requires c[PriceStart] == p.printDay(d) && c[PriceEnd] == p.printDay(e)
    requires c[PriceLatest] == p.printInt(latest) && c[PriceMaxPoints] == p.printInt(points)
    ensures ReadWindow(p, PricePart(c)) == Some(Window(Some(d), Some(e), Some(latest), Some(points)))
  {
    hide Token;
  }

  /** The only parameter of its name is read as its control. */
  lemma OnlyOne(params: seq<Param>, i: nat, k: Kind)
    requires i < |params| && params[i].name == NameOf(Bootstrap, k) && Clean(params[i].value)
    requires forall j :: 0 <= j < |params| && j != i ==> params[j].name != NameOf(Bootstrap, k)
    ensures k in ReadControls(Bootstrap, params) && ReadControls(Bootstrap, params)[k] == params[i].value
  {
    hide Strip, ValuesOf, NameOf, ReadControls;
    OnlyOneFound(params, i, k);
    StripTrims(params[i].value);
    ControlIsRead(params, k);
  }

  lemma ControlIsRead(params: seq<Param>, k: Kind)
    requires ReadOne(Bootstrap, params, k).Some?
    ensures k in ReadControls(Bootstrap, params)
    ensures ReadControls(Bootstrap, params)[k] == ReadOne(Bootstrap, params, k).value
  {
    hide ReadOne;
    AllKindsListed();
  }

  lemma OnlyOneFound(params: seq<Param>, i: nat, k: Kind)
    requires i < |params| && params[i].name == NameOf(Bootstrap, k)
    requires forall j :: 0 <= j < |params| && j != i ==> params[j].name != NameOf(Bootstrap, k)
    ensures ValuesOf(Bootstrap, params, k) != [] && ValuesOf(Bootstrap, params, k)[0] == params[i]
  {
    hide NameOf;
    var found := ValuesOf(Bootstrap, params, k);
    assert params[i] in found;
    assert found[0] in found;
    var j :| 0 <= j < |params| && params[j] == found[0];
  }

  /** The view is read under the route's own name for it. */
  lemma ViewOfRequest(p: Parsers, route: Route, text: string)
    requires Clean(text)
    ensures var name := if route == Financials then "view" else "financials_view";
            WishOf(p, route, ReadControls(route, [Param(name, text)])).view == Lower(text)
  {
    hide Strip, Lower, ReadWindow, SectionsAsked, FlagsAsked;
    var params := [Param(if route == Financials then "view" else "financials_view", text)];
    assert ValuesOf(route, params, View) == params by {
      assert params[1..] == [];
    }
    StripTrims(text);
    AllKindsListed();
    assert ReadOne(route, params, View) == Some(text);
  }

  /** The instant is read under the same name on every route. */
  lemma InstantOfRequest(p: Parsers, route: Route, text: string)
    requires Clean(text)
    ensures WishOf(p, route, ReadControls(route, [Param("as_of", text)])).instant == p.parseInstant(text)
  {
    hide Strip, Lower, ReadWindow, SectionsAsked, FlagsAsked;
    var params := [Param("as_of", text)];
    assert ValuesOf(route, params, AsOf) == params by {
      assert params[1..] == [];
    }
    StripTrims(text);
    AllKindsListed();
    assert ReadOne(route, params, AsOf) == Some(text);
  }
}
