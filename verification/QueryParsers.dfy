/**
 The as-of and price normalisers of the company routes, each a parser followed by a printer. What canonicalisation needs
 of them follows from one law: parsing what was printed gives it back.
 */
module QueryParsers {
  import opened HotCacheKeys
  import opened QueryCanon
  import opened Text
  import opened Wrappers

  type Instant = int

  type Day = int

  /** The standard library's parsers and printers of instants, dates and integers. */
  datatype Parsers = Parsers(
    parseInstant: string -> Option<Instant>, printInstant: Instant -> string,
    parseDay: string -> Option<Day>, printDay: Day -> string,
    parseInt: string -> Option<int>, printInt: int -> string)

  /** A printed text that fits into a query and into a price token. */
  predicate Token(text: string) {
    Clean(text) && text != "none" && ';' !in text && ':' !in text
  }

  ghost predicate LawfulInstant(p: Parsers, t: Instant) {
    p.parseInstant(p.printInstant(t)) == Some(t) && Clean(p.printInstant(t)) && p.printInstant(t) != "latest" &&
    '=' !in p.printInstant(t)
  }

  ghost predicate LawfulDay(p: Parsers, d: Day) {
    p.parseDay(p.printDay(d)) == Some(d) && Token(p.printDay(d))
  }

  ghost predicate LawfulInt(p: Parsers, i: int) {
    p.parseInt(p.printInt(i)) == Some(i) && Token(p.printInt(i))
  }

  /** Parsing undoes printing; an instant may print with colons, a day and an integer do not. */
  ghost predicate ValidParsers(p: Parsers) {
    (forall t :: LawfulInstant(p, t)) && (forall d :: LawfulDay(p, d)) && forall i :: LawfulInt(p, i)
  }

  /** `_validated_as_of`, then `_normalize_as_of`. */
  function AsOfText(p: Parsers, text: string): Option<string> {
    match p.parseInstant(text) case None => None case Some(t) => Some(p.printInstant(t))
  }

  /** The window of price history asked for. */
  datatype Window = Window(start: Option<Day>, end: Option<Day>, latest: Option<int>, points: Option<int>)

  predicate ValidWindow(w: Window) {
    (w.start.Some? && w.end.Some? ==> w.start.value <= w.end.value) &&
    (w.latest.Some? ==> w.latest.value > 0) && (w.points.Some? ==> w.points.value >= 2)
  }

  /** A control that may be absent; None is one that cannot be read. */
  function ReadDay(p: Parsers, c: Controls, k: Kind): Option<Option<Day>> {
    if k !in c then Some(None)
    else match p.parseDay(c[k]) case None => None case Some(d) => Some(Some(d))
  }

  function ReadInt(p: Parsers, c: Controls, k: Kind): Option<Option<int>> {
    if k !in c then Some(None)
    else match p.parseInt(c[k]) case None => None case Some(i) => Some(Some(i))
  }

  function ReadWindow(p: Parsers, c: Controls): Option<Window> {
    var start, end := ReadDay(p, c, PriceStart), ReadDay(p, c, PriceEnd);
    var latest, points := ReadInt(p, c, PriceLatest), ReadInt(p, c, PriceMaxPoints);
    if start.None? || end.None? || latest.None? || points.None? then None
    else
      var w := Window(start.value, end.value, latest.value, points.value);
      if ValidWindow(w) then Some(w) else None
  }

  function PrintedDay(p: Parsers, d: Option<Day>): Option<string> {
    match d case None => None case Some(x) => Some(p.printDay(x))
  }

  function PrintedInt(p: Parsers, i: Option<int>): Option<string> {
    match i case None => None case Some(x) => Some(p.printInt(x))
  }

  function WindowText(p: Parsers, w: Window, k: Kind): Option<string> {
    match k
    case PriceStart => PrintedDay(p, w.start)
    case PriceEnd => PrintedDay(p, w.end)
    case PriceLatest => PrintedInt(p, w.latest)
    case PriceMaxPoints => PrintedInt(p, w.points)
    case _ => None
  }

  function WriteWindow(p: Parsers, w: Window): Controls {
    map k | k in PRICES && WindowText(p, w, k).Some? :: WindowText(p, w, k).value
  }

  function OrNone(text: Option<string>): string {
    text.GetOr("none")
  }

  function TokenParts(p: Parsers, w: Window): seq<string> {
    ["start=" + OrNone(WindowText(p, w, PriceStart)), "end=" + OrNone(WindowText(p, w, PriceEnd)),
     "latest=" + OrNone(WindowText(p, w, PriceLatest)), "points=" + OrNone(WindowText(p, w, PriceMaxPoints))]
  }

  /** `_price_history_cache_token`. */
  function WindowToken(p: Parsers, w: Window): string {
    if w == Window(None, None, None, None) then "default" else Join(TokenParts(p, w), ';')
  }

  function PriceTexts(p: Parsers, c: Controls): Option<PriceControls> {
    match ReadWindow(p, c)
    case None => None
    case Some(w) => Some(PriceControls(WriteWindow(p, w), WindowToken(p, w)))
  }

  function NormalizersOf(p: Parsers): Normalizers {
    Normalizers(text => AsOfText(p, text), c => PriceTexts(p, c))
  }

  // ----- the laws -----

  lemma DayReadsBack(p: Parsers, c: Controls, k: Kind, d: Option<Day>)
    requires ValidParsers(p) && (k in c <==> d.Some?) && (k in c ==> Some(c[k]) == PrintedDay(p, d))
    ensures ReadDay(p, c, k) == Some(d) && (k in c ==> Clean(c[k]))
  {
    hide Clean;
    if d.Some? { assert LawfulDay(p, d.value); }
  }

  lemma IntReadsBack(p: Parsers, c: Controls, k: Kind, i: Option<int>)
    requires ValidParsers(p) && (k in c <==> i.Some?) && (k in c ==> Some(c[k]) == PrintedInt(p, i))
    ensures ReadInt(p, c, k) == Some(i) && (k in c ==> Clean(c[k]))
  {
    hide Clean;
    if i.Some? { assert LawfulInt(p, i.value); }
  }

  lemma ReadWritten(p: Parsers, w: Window)
    requires ValidParsers(p) && ValidWindow(w)
    ensures ReadWindow(p, WriteWindow(p, w)) == Some(w)
    ensures WriteWindow(p, w).Keys <= PRICES
    ensures forall k :: k in WriteWindow(p, w) ==> Clean(WriteWindow(p, w)[k])
  {
    hide Clean, ReadDay, ReadInt, ValidParsers;
    var c := WriteWindow(p, w);
    DayReadsBack(p, c, PriceStart, w.start);
    DayReadsBack(p, c, PriceEnd, w.end);
    IntReadsBack(p, c, PriceLatest, w.latest);
    IntReadsBack(p, c, PriceMaxPoints, w.points);
  }

  lemma TextOrNone(p: Parsers, w: Window, k: Kind)
    requires ValidParsers(p)
    ensures WindowText(p, w, k) != Some("none")
    ensures ';' !in OrNone(WindowText(p, w, k)) && ':' !in OrNone(WindowText(p, w, k))
  {
    hide Clean;
    assert w.start.Some? ==> LawfulDay(p, w.start.value);
    assert w.end.Some? ==> LawfulDay(p, w.end.value);
    assert w.latest.Some? ==> LawfulInt(p, w.latest.value);
    assert w.points.Some? ==> LawfulInt(p, w.points.value);
  }

  lemma PartsArePlain(p: Parsers, w: Window)
    requires ValidParsers(p)
    ensures forall part :: part in TokenParts(p, w) ==> ';' !in part && ':' !in part
  {
    hide WindowText, OrNone, ValidParsers;
    forall k ensures ';' !in OrNone(WindowText(p, w, k)) && ':' !in OrNone(WindowText(p, w, k)) { TextOrNone(p, w, k); }
  }

  /** Different windows have different tokens. */
  lemma TokenNamesWindow(p: Parsers, w: Window, v: Window)
    requires ValidParsers(p) && WindowToken(p, w) == WindowToken(p, v)
    ensures WriteWindow(p, w) == WriteWindow(p, v)
  {
    hide WindowText, OrNone, ValidParsers, TokenParts, Join;
    PartsArePlain(p, w);
    PartsArePlain(p, v);
    TokenPartsCount(p, w);
    TokenPartsCount(p, v);
    SplitJoin(TokenParts(p, w), ';');
    SplitJoin(TokenParts(p, v), ';');
    SplitPrefix("default", "", ';');
    if w != v {
      SamePartsSameTexts(p, w, v);
    }
  }

  lemma TokenPartsCount(p: Parsers, w: Window)
    ensures |TokenParts(p, w)| == 4
  {
  }

  lemma SamePartsSameTexts(p: Parsers, w: Window, v: Window)
    requires ValidParsers(p) && TokenParts(p, w) == TokenParts(p, v)
    ensures WriteWindow(p, w) == WriteWindow(p, v)
  {
    hide WindowText, ValidParsers;
    var a, b := TokenParts(p, w), TokenParts(p, v);
    assert a[0] == b[0] && a[1] == b[1] && a[2] == b[2] && a[3] == b[3];
    forall k | k in PRICES ensures WindowText(p, w, k) == WindowText(p, v, k) {
      TextOrNone(p, w, k);
      TextOrNone(p, v, k);
      var name := match k case PriceStart => "start=" case PriceEnd => "end=" case PriceLatest => "latest=" case _ =>
        "points=";
      SamePrefix(name, OrNone(WindowText(p, w, k)), OrNone(WindowText(p, v, k)));
    }
  }

  lemma TokenIsPlain(p: Parsers, w: Window)
    requires ValidParsers(p)
    ensures ':' !in WindowToken(p, w)
  {
    hide TokenParts, ValidParsers;
    PartsArePlain(p, w);
    JoinLacks(TokenParts(p, w), ';', ':');
  }

  /** The source's normalisers meet everything the canonicalisation and hot-cache theorems ask of them. */
  lemma SourceNormalizersAreValid(p: Parsers)
    requires ValidParsers(p)
    ensures ValidNormalizers(NormalizersOf(p)) && FaithfulTokens(NormalizersOf(p)) && PlainTokens(NormalizersOf(p))
  {
    hide ReadWindow, WriteWindow, WindowToken, Clean;
    var n := NormalizersOf(p);
    forall text | n.asOf(text).Some?
      ensures Clean(n.asOf(text).value) && n.asOf(text).value != "latest" && n.asOf(n.asOf(text).value) == n.asOf(text)
    {
      assert LawfulInstant(p, p.parseInstant(text).value);
    }
    forall c: Controls | n.prices(c).Some?
      ensures n.prices(n.prices(c).value.values) == n.prices(c) && n.prices(c).value.values.Keys <= PRICES
      ensures forall k :: k in n.prices(c).value.values ==> Clean(n.prices(c).value.values[k])
    {
      ReadsValid(p, c);
      ReadWritten(p, ReadWindow(p, c).value);
    }
    forall c | n.prices(c).Some? ensures ':' !in n.prices(c).value.token { TokenIsPlain(p, ReadWindow(p, c).value); }
    forall c, d | n.prices(c).Some? && n.prices(d).Some? && n.prices(c).value.token == n.prices(d).value.token
      ensures n.prices(c).value.values == n.prices(d).value.values
    {
      TokenNamesWindow(p, ReadWindow(p, c).value, ReadWindow(p, d).value);
    }
  }

  lemma ReadsValid(p: Parsers, c: Controls)
    ensures ReadWindow(p, c).Some? ==> ValidWindow(ReadWindow(p, c).value)
  {
  }
}
