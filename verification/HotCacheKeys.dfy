/**
 The hot-cache keys as the texts the cache is asked for. A text determines its parts although an as-of instant contains
 the separator, so the theorems about parts are theorems about texts.
 */
module HotCacheKeys {
  import opened Ordering
  import opened QueryCanon
  import opened Text
  import opened Wrappers

  function Bit(b: bool): string {
    if b then "1" else "0"
  }

  function SectionsText(sections: seq<string>): string {
    if sections == [] then "all" else Join(sections, ',')
  }

  /** What follows the as-of instant: a fixed number of parts, none of which contains the separator. */
  function TailParts(k: HotKey): seq<string> {
    match k.route
    case Financials => []
    case Overview => ["prices=" + k.priceToken]
    case Bootstrap =>
      ["overview=" + Bit(IncludeOverviewBrief in k.flags), "insiders=" + Bit(IncludeInsiders in k.flags),
       "institutional=" + Bit(IncludeInstitutional in k.flags), "earnings=" + Bit(IncludeEarningsSummary in k.flags),
       "prices=" + k.priceToken, "sections=" + SectionsText(k.sections), "compact=" + Bit(k.compact)]
  }

  function Head(route: Route, ticker: string): string {
    (match route case Financials => "financials" case Overview => "overview" case Bootstrap => "workspace_bootstrap") +
    ":" + ticker + ":"
  }

  function Tail(parts: seq<string>): string {
    if parts == [] then "" else ":" + Join(parts, ':')
  }

  /** The text of a key with any further parts. */
  function TextWith(route: Route, ticker: string, view: string, asOf: string, parts: seq<string>): string {
    Head(route, ticker) + ("view=" + view + ":" + ("asof=" + asOf + Tail(parts)))
  }

  /** The text of a key. */
  function KeyText(k: HotKey): string {
    TextWith(k.route, k.ticker, k.view, k.asOf, TailParts(k))
  }

  /** What the parts of a computed key look like. */
  ghost predicate WellFormed(k: HotKey) {
    k.view in VIEWS && k.flags <= FLAGS && ':' !in k.priceToken &&
    (forall name :: name in k.sections ==> name in SECTION_NAMES) &&
    (k.route != Bootstrap ==> k.flags == {} && k.sections == [] && !k.compact) &&
    (k.route == Financials ==> k.priceToken == "")
  }

  /** Price tokens are made of dates and integers. */
  ghost predicate PlainTokens(n: Normalizers) {
    forall c :: n.prices(c).Some? ==> ':' !in n.prices(c).value.token
  }

  lemma KeyIsWellFormed(route: Route, n: Normalizers, ticker: string, c: Controls)
    requires ValidRequest(route, n, c) && PlainTokens(n)
    ensures WellFormed(HotKeyOf(route, n, ticker, c))
  {
    hide NormalView, CompactOn, FlagOn, PricePart, SectionsOf;
    SectionsAreNames(Raw(c, Sections), FlagsOn(c));
    assert route == Bootstrap ==> n.prices(PricePart(c)).Some?;
  }

  // ----- texts determine parts -----

  /** Equally many plain parts at the end of a text are the same parts, whatever comes before them. */
  lemma TailsAgree(a: string, p: seq<string>, b: string, q: seq<string>)
    requires |p| == |q| && (forall x :: x in p ==> ':' !in x) && forall x :: x in q ==> ':' !in x
    requires a + Tail(p) == b + Tail(q)
    ensures a == b && p == q
  {
    hide Join, Split;
    if p == [] {
      assert a + "" == a && b + "" == b;
    } else {
      SplitAppend(a, Join(p, ':'), ':');
      SplitAppend(b, Join(q, ':'), ':');
      SplitJoin(p, ':');
      SplitJoin(q, ':');
      assert a + Tail(p) == a + [':'] + Join(p, ':') && b + Tail(q) == b + [':'] + Join(q, ':');
      var s, t := Split(a, ':') + p, Split(b, ':') + q;
      assert s == t && |s| - |p| == |Split(a, ':')|;
      assert p == s[|s| - |p|..] && q == t[|t| - |q|..];
      SameSuffix(a, b, Tail(p));
    }
  }

  lemma SectionsArePlain(sections: seq<string>)
    requires forall name :: name in sections ==> name in SECTION_NAMES
    ensures ':' !in SectionsText(sections)
  {
    forall name | name in sections ensures ':' !in name { NameHasNoColon(name); }
    if sections != [] { JoinLacks(sections, ',', ':'); }
  }

  lemma NameHasNoColon(name: string)
    requires name in SECTION_NAMES
    ensures ':' !in name
  {
  }

  lemma SectionsTextDetermines(a: seq<string>, b: seq<string>)
    requires (forall name :: name in a ==> name in SECTION_NAMES) && forall name :: name in b ==> name in SECTION_NAMES
    requires SectionsText(a) == SectionsText(b)
    ensures a == b
  {
    hide Join;
    forall name | name in SECTION_NAMES ensures ',' !in name { SectionNamesAreStable(name); }
    assert "all" !in SECTION_NAMES;
    SplitPrefix("all", "", ',');
    if a != [] { SplitJoin(a, ','); assert a[0] in a; }
    if b != [] { SplitJoin(b, ','); assert b[0] in b; }
  }

  lemma TailPartsArePlain(k: HotKey)
    requires WellFormed(k)
    ensures forall part :: part in TailParts(k) ==> ':' !in part
  {
    hide SectionsText;
    SectionsArePlain(k.sections);
  }

  lemma BitDetermines(a: bool, b: bool)
    requires Bit(a) == Bit(b)
    ensures a == b
  {
  }

  lemma BootstrapPartsDetermine(k: HotKey, m: HotKey)
    requires k.route == Bootstrap == m.route && TailParts(k) == TailParts(m)
    ensures Bit(IncludeOverviewBrief in k.flags) == Bit(IncludeOverviewBrief in m.flags)
    ensures Bit(IncludeInsiders in k.flags) == Bit(IncludeInsiders in m.flags)
    ensures Bit(IncludeInstitutional in k.flags) == Bit(IncludeInstitutional in m.flags)
    ensures Bit(IncludeEarningsSummary in k.flags) == Bit(IncludeEarningsSummary in m.flags)
    ensures k.priceToken == m.priceToken && SectionsText(k.sections) == SectionsText(m.sections)
    ensures Bit(k.compact) == Bit(m.compact)
  {
    hide SectionsText, Bit;
    var p, q := TailParts(k), TailParts(m);
    assert p[0] == q[0] && p[1] == q[1] && p[2] == q[2] && p[3] == q[3] && p[4] == q[4] && p[5] == q[5] && p[6] == q[6];
    SamePrefix("overview=", Bit(IncludeOverviewBrief in k.flags), Bit(IncludeOverviewBrief in m.flags));
    SamePrefix("insiders=", Bit(IncludeInsiders in k.flags), Bit(IncludeInsiders in m.flags));
    SamePrefix("institutional=", Bit(IncludeInstitutional in k.flags), Bit(IncludeInstitutional in m.flags));
    SamePrefix("earnings=", Bit(IncludeEarningsSummary in k.flags), Bit(IncludeEarningsSummary in m.flags));
    SamePrefix("prices=", k.priceToken, m.priceToken);
    SamePrefix("sections=", SectionsText(k.sections), SectionsText(m.sections));
    SamePrefix("compact=", Bit(k.compact), Bit(m.compact));
  }

  lemma SameTail(k: HotKey, m: HotKey)
    requires WellFormed(k) && WellFormed(m) && k.route == m.route && TailParts(k) == TailParts(m)
    ensures k.flags == m.flags && k.priceToken == m.priceToken && k.sections == m.sections && k.compact == m.compact
  {
    hide SectionsText, Bit, TailParts;
    if k.route == Bootstrap {
      BootstrapPartsDetermine(k, m);
      BitDetermines(k.compact, m.compact);
      SectionsTextDetermines(k.sections, m.sections);
      forall f | f in FLAGS ensures f in k.flags <==> f in m.flags { BitDetermines(f in k.flags, f in m.flags); }
    } else if k.route == Overview {
      OverviewPartDetermines(k, m);
    }
  }

  lemma OverviewPartDetermines(k: HotKey, m: HotKey)
    requires k.route == Overview == m.route && TailParts(k) == TailParts(m)
    ensures k.priceToken == m.priceToken
  {
    assert TailParts(k)[0] == TailParts(m)[0];
    SamePrefix("prices=", k.priceToken, m.priceToken);
  }

  lemma ViewHasNoColon(view: string)
    requires view in VIEWS
    ensures ':' !in "view=" + view
  {
  }

  /** For one route and ticker, different keys have different texts. */
  lemma KeyTextIsInjective(k: HotKey, m: HotKey)
    requires WellFormed(k) && WellFormed(m) && k.route == m.route && k.ticker == m.ticker
    requires KeyText(k) == KeyText(m)
    ensures k == m
  {
    hide TailParts, Head, Tail;
    var x, y := "asof=" + k.asOf + Tail(TailParts(k)), "asof=" + m.asOf + Tail(TailParts(m));
    SamePrefix(Head(k.route, k.ticker), "view=" + k.view + ":" + x, "view=" + m.view + ":" + y);
    ViewHasNoColon(k.view);
    ViewHasNoColon(m.view);
    CutsOnce("view=" + k.view, x, "view=" + m.view, y, ':');
    SamePrefix("view=", k.view, m.view);
    TailPartsArePlain(k);
    TailPartsArePlain(m);
    TailPartsCount(k, m);
    TailsAgree("asof=" + k.asOf, TailParts(k), "asof=" + m.asOf, TailParts(m));
    SamePrefix("asof=", k.asOf, m.asOf);
    SameTail(k, m);
  }

  lemma TailPartsCount(k: HotKey, m: HotKey)
    requires k.route == m.route
    ensures |TailParts(k)| == |TailParts(m)|
  {
  }

  /** Two valid requests for the same route and ticker ask for the same text if and only if their normalised controls
      agree; what passes through, such as an overview's price window, is not in the text. */
  lemma SameTextExactlyWhenSameControls(
      route: Route, n: Normalizers, ticker: string, params: seq<Param>, other: seq<Param>)
    requires ValidNormalizers(n) && FaithfulTokens(n) && PlainTokens(n)
    requires ValidQuery(route, n, params) && ValidQuery(route, n, other)
    ensures KeyText(HotKeyOf(route, n, ticker, ReadControls(route, params))) ==
            KeyText(HotKeyOf(route, n, ticker, ReadControls(route, other))) <==>
            Normalized(route, n, ReadControls(route, params)) == Normalized(route, n, ReadControls(route, other))
  {
    hide Normalized, ReadControls, NoDuplicates, ValidRequest, ValidNormalizers, FaithfulTokens, PlainTokens, KeyText,
      WellFormed;
    var a, b := ReadControls(route, params), ReadControls(route, other);
    SameKeyExactlyWhenSameControls(route, n, ticker, params, other);
    KeyIsWellFormed(route, n, ticker, a);
    KeyIsWellFormed(route, n, ticker, b);
    if KeyText(HotKeyOf(route, n, ticker, a)) == KeyText(HotKeyOf(route, n, ticker, b)) {
      KeyTextIsInjective(HotKeyOf(route, n, ticker, a), HotKeyOf(route, n, ticker, b));
    }
  }
}
