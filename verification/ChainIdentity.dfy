/**
 What a chain key stands for: the parties' CIKs, or else their names as words, or else the words of the document's
 name, or else the accession number. Uncut keys agree exactly when base form and identity do.
 */
module ChainIdentity {
  import opened ChainKeys
  import opened Ordering
  import opened Text
  import opened Wrappers

  datatype Identity =
    | ByCiks(ciks: set<string>)
    | ByNames(names: set<string>)
    | ByDocument(words: string)
    | ByAccession(number: string)

  // ----- words -----

  /** The maximal runs of the characters kept. */
  function Runs(s: string, keep: char -> bool): (r: seq<string>)
    ensures s != [] && keep(s[0]) ==> r != []
  {
    if s == [] then []
    else
      var rest := Runs(s[1..], keep);
      if !keep(s[0]) then rest
      else if |s| > 1 && keep(s[1]) then [[s[0]] + rest[0]] + rest[1..]
      else [[s[0]]] + rest
  }

  const INK := (c: char) => !IsSpace(c)

  const LETTER_OR_DIGIT := (c: char) => 'a' <= c <= 'z' || '0' <= c <= '9'

  /** A name in lower case, its words separated by single blanks. */
  function Wording(name: string): string {
    Join(Runs(Lower(Strip(name)), INK), ' ')
  }

  lemma JoinHead(first: string, c: char, rest: seq<string>, sep: char)
    ensures Join([[c] + first] + rest, sep) == [c] + Join([first] + rest, sep)
  {
    assert ([[c] + first] + rest)[1..] == rest && ([first] + rest)[1..] == rest;
  }

  lemma JoinCons(first: string, rest: seq<string>, sep: char)
    requires rest != []
    ensures Join([first] + rest, sep) == first + [sep] + Join(rest, sep)
  {
    assert ([first] + rest)[1..] == rest;
  }

  /** One more kept character in front of what is joined. */
  lemma JoinRuns(s: string, keep: char -> bool, sep: char)
    requires s != [] && keep(s[0])
    ensures |s| > 1 && keep(s[1]) ==> Join(Runs(s, keep), sep) == [s[0]] + Join(Runs(s[1..], keep), sep)
    ensures |s| > 1 && !keep(s[1]) && Runs(s[1..], keep) != [] ==>
              Join(Runs(s, keep), sep) == [s[0]] + [sep] + Join(Runs(s[1..], keep), sep)
    ensures Runs(s[1..], keep) == [] ==> Join(Runs(s, keep), sep) == [s[0]]
  {
    var rest := Runs(s[1..], keep);
    if |s| > 1 && keep(s[1]) {
      JoinHead(rest[0], s[0], rest[1..], sep);
      assert [rest[0]] + rest[1..] == rest;
    } else if rest != [] {
      JoinCons([s[0]], rest, sep);
    }
  }

  lemma {:induction false} HasRun(s: string, keep: char -> bool)
    requires s != [] && keep(s[|s| - 1])
    ensures Runs(s, keep) != []
  {
    if |s| > 1 { HasRun(s[1..], keep); }
  }

  lemma SkipsToRuns(s: string, keep: char -> bool)
    ensures s == [] ==> Runs(s, keep) == []
    ensures s != [] && !keep(s[0]) ==> Runs(s, keep) == Runs(s[1..], keep)
  {
  }

  lemma CollapseStep(s: string)
    ensures s == [] ==> CollapseSpaces(s) == []
    ensures s != [] ==>
              CollapseSpaces(s) ==
              (if !IsSpace(s[0]) then [s[0]] else if |s| > 1 && IsSpace(s[1]) then [] else [' ']) +
              CollapseSpaces(s[1..])
  {
  }

  lemma {:induction false} CollapsedIsJoined(s: string)
    requires s != [] && !IsSpace(s[|s| - 1])
    ensures CollapseSpaces(s) == (if IsSpace(s[0]) then " " else "") + Join(Runs(s, INK), ' ')
  {
    hide Runs, Join, CollapseSpaces, IsSpace;
    SkipsToRuns(s, INK);
    SkipsToRuns(s[1..], INK);
    CollapseStep(s);
    CollapseStep(s[1..]);
    if |s| > 1 {
      CollapsedIsJoined(s[1..]);
      HasRun(s[1..], INK);
    }
    if !IsSpace(s[0]) { JoinRuns(s, INK, ' '); }
  }

  lemma NameIsWording(name: string)
    ensures NormalizeChainName(name) == Wording(name)
  {
    hide Runs, Strip;
    StripTrims(name);
    var text := Lower(Strip(name));
    if text != [] {
      LowerKeepsSpaces(Strip(name), 0);
      LowerKeepsSpaces(Strip(name), |text| - 1);
      CollapsedIsJoined(text);
    } else {
      NothingRuns();
    }
  }

  lemma LowerKeepsSpaces(s: string, i: nat)
    requires i < |s|
    ensures IsSpace(Lower(s)[i]) <==> IsSpace(s[i])
  {
  }

  lemma NothingRuns()
    ensures Join(Runs("", INK), ' ') == "" && CollapseSpaces("") == ""
  {
  }

  // ----- document names -----

  /** Runs of letters and digits separated by dashes, with one at either end where something else stood there. */
  lemma {:induction false} DashedIsJoined(s: string)
    requires s != []
    ensures Runs(s, LETTER_OR_DIGIT) == [] ==> Dashed(s) == "-"
    ensures Runs(s, LETTER_OR_DIGIT) != [] ==>
              Dashed(s) == (if IsAlnum(s[0]) then "" else "-") + Join(Runs(s, LETTER_OR_DIGIT), '-') +
                           (if IsAlnum(s[|s| - 1]) then "" else "-")
  {
    hide Runs, Join, Dashed, IsAlnum;
    SameLetters(s[0]);
    SameLetters(s[|s| - 1]);
    SkipsToRuns(s, LETTER_OR_DIGIT);
    SkipsToRuns(s[1..], LETTER_OR_DIGIT);
    DashStep(s);
    DashStep(s[1..]);
    if |s| > 1 {
      SameLetters(s[1]);
      DashedIsJoined(s[1..]);
      if IsAlnum(s[|s| - 1]) { HasRun(s[1..], LETTER_OR_DIGIT); }
    }
    if IsAlnum(s[0]) { JoinRuns(s, LETTER_OR_DIGIT, '-'); }
  }

  lemma SameLetters(c: char)
    ensures IsAlnum(c) <==> LETTER_OR_DIGIT(c)
  {
  }

  lemma DashStep(s: string)
    ensures s == [] ==> Dashed(s) == []
    ensures s != [] ==>
              Dashed(s) ==
              (if IsAlnum(s[0]) then [s[0]] else if |s| > 1 && !IsAlnum(s[1]) then [] else ['-']) + Dashed(s[1..])
  {
  }

  lemma {:induction false} RunsEndWell(s: string)
    ensures var text := Join(Runs(s, LETTER_OR_DIGIT), '-');
            Runs(s, LETTER_OR_DIGIT) != [] ==> text != "" && text[0] != '-' && text[|text| - 1] != '-'
  {
    if s != [] {
      RunsEndWell(s[1..]);
      if IsAlnum(s[0]) { JoinRuns(s, LETTER_OR_DIGIT, '-'); }
    }
  }

  lemma TrimsDashes(text: string, front: string, back: string)
    requires front in {"", "-"} && back in {"", "-"}
    requires text != "" && text[0] != '-' && text[|text| - 1] != '-'
    ensures TrimDashes(front + text + back) == text
  {
    var all := front + text + back;
    if front == "-" { assert all[1..] == text + back; }
    assert TrimDashes(text + back) == text by {
      if back == "-" { assert (text + back)[..|text|] == text; } else { assert text + back == text; }
    }
    if front == "" { assert all == text + back; }
  }

  /** The words of a document's name. */
  function DocumentWords(document: string): string {
    Join(Runs(Lower(Stem(document)), LETTER_OR_DIGIT), '-')
  }

  lemma TokenIsWords(s: string)
    ensures TrimDashes(Dashed(s)) == Join(Runs(s, LETTER_OR_DIGIT), '-')
  {
    hide Runs, Dashed, TrimDashes;
    if s == "" {
      NothingDashed();
    } else {
      DashedIsJoined(s);
      RunsEndWell(s);
      if Runs(s, LETTER_OR_DIGIT) == [] {
        NothingDashed();
      } else {
        TrimsDashes(Join(Runs(s, LETTER_OR_DIGIT), '-'), if IsAlnum(s[0]) then "" else "-",
                    if IsAlnum(s[|s| - 1]) then "" else "-");
      }
    }
  }

  lemma NothingDashed()
    ensures TrimDashes("-") == "" && TrimDashes(Dashed("")) == "" && Runs("", LETTER_OR_DIGIT) == []
  {
    assert "-"[1..] == "";
  }

  /** The name has an extension from its dot on: the last dot, after the last slash and some other character. */
  ghost predicate ExtensionAt(name: string, dot: int) {
    0 <= dot < |name| && name[dot] == '.' && (forall j :: dot < j < |name| ==> name[j] != '.' && name[j] != '/') &&
    exists i :: 0 <= i < dot && name[i] != '.' && forall j :: i <= j < dot ==> name[j] != '/'
  }

  lemma {:induction false} LastIndexMeaning(s: string, c: char)
    ensures LastIndexOf(s, c) >= 0 ==> s[LastIndexOf(s, c)] == c
    ensures forall j :: LastIndexOf(s, c) < j < |s| ==> s[j] != c
  {
    if s != [] { LastIndexMeaning(s[..|s| - 1], c); }
  }

  /** A stem is the name without its extension, or the whole name when it has none. */
  lemma StemMeaning(name: string)
    ensures forall dot :: ExtensionAt(name, dot) ==> Stem(name) == name[..dot]
    ensures (forall dot :: !ExtensionAt(name, dot)) ==> Stem(name) == name
  {
    hide LastIndexOf;
    LastIndexMeaning(name, '.');
    LastIndexMeaning(name, '/');
    var dot, slash := LastIndexOf(name, '.'), LastIndexOf(name, '/');
    if dot > slash && exists i :: slash < i < dot && name[i] != '.' {
      var i :| slash < i < dot && name[i] != '.';
      assert forall j :: i <= j < dot ==> name[j] != '/';
      assert ExtensionAt(name, dot);
    }
  }

  // ----- identities -----

  function CikSet(f: Facts): set<string> {
    set p | p in f.parties && p.cik.Some? && p.cik.value != "" :: p.cik.value
  }

  function NameSet(f: Facts): set<string> {
    set p | p in f.parties && Strip(p.name) != "" :: Wording(p.name)
  }

  function WordsOf(f: Facts): string {
    if f.primaryDocument.Some? then DocumentWords(f.primaryDocument.value) else ""
  }

  function IdentityOf(f: Facts): Identity {
    var words := WordsOf(f);
    if CikSet(f) != {} then ByCiks(CikSet(f))
    else if NameSet(f) != {} then ByNames(NameSet(f))
    else if |words| >= 4 then ByDocument(if |words| > 96 then words[..96] else words)
    else ByAccession(Filter((c: char) => c != '-', f.accession))
  }

  lemma {:induction false} DashesDropped(s: string)
    ensures WithoutDashes(s) == Filter((c: char) => c != '-', s)
  {
    if s != [] { DashesDropped(s[1..]); }
  }

  /** Base form without a colon, CIKs and names without the bar that separates them. */
  ghost predicate Separable(f: Facts) {
    ':' !in f.baseForm && (forall y :: y in CikSet(f) ==> '|' !in y) && forall y :: y in NameSet(f) ==> '|' !in y
  }

  lemma CiksAreSet(f: Facts)
    ensures forall y :: y in Ciks(f.parties) <==> y in CikSet(f)
    ensures Ciks(f.parties) == [] <==> CikSet(f) == {}
  {
    var ciks := Ciks(f.parties);
    if ciks != [] { assert ciks[0] in ciks; }
    assert forall y :: y in CikSet(f) ==> y in ciks;
  }

  lemma WordingIsThere(name: string)
    requires Strip(name) != ""
    ensures NormalizeChainName(name) != ""
  {
    hide Strip, Runs;
    StripTrims(name);
    LowerKeepsSpaces(Strip(name), 0);
    CollapseStep(Lower(Strip(name)));
  }

  lemma NamesAreSet(f: Facts)
    ensures forall y :: y in Names(f.parties) <==> y in NameSet(f)
    ensures Names(f.parties) == [] <==> NameSet(f) == {}
  {
    hide Strip, Wording, NormalizeChainName;
    forall p | p in f.parties
      ensures NormalizeChainName(p.name) == Wording(p.name)
      ensures Strip(p.name) != "" ==> Wording(p.name) != ""
    {
      NameIsWording(p.name);
      if Strip(p.name) != "" { WordingIsThere(p.name); }
    }
    var names := Names(f.parties);
    if names != [] { assert names[0] in names; }
    assert forall y :: y in NameSet(f) ==> y in names;
  }

  lemma TokenMeaning(f: Facts)
    ensures DocumentToken(f.primaryDocument) ==
            if |WordsOf(f)| < 4 then None else Some(if |WordsOf(f)| > 96 then WordsOf(f)[..96] else WordsOf(f))
  {
    hide Runs, Stem, Dashed, TrimDashes, Join;
    if f.primaryDocument.Some? {
      TokenIsWords(Lower(Stem(f.primaryDocument.value)));
      assert DocumentWords("") == "" by { NothingStands(); }
    }
  }

  lemma NothingStands()
    ensures DocumentWords("") == ""
  {
  }

  /** What follows the base form and its colon. */
  function Rest(f: Facts): string {
    match IdentityOf(f)
    case ByCiks(_) => "cik:" + Join(SortedDistinct(Ciks(f.parties)), '|')
    case ByNames(_) => "name:" + Join(SortedDistinct(Names(f.parties)), '|')
    case ByDocument(words) => "doc:" + words
    case ByAccession(number) => "accession:" + number
  }

  lemma KeyIsRest(f: Facts)
    ensures FullKey(f) == f.baseForm + ":" + Rest(f)
  {
    hide DocumentToken, WithoutDashes, WordsOf, DocumentWords, Join, Filter, CikSet, NameSet, Ciks, Names,
      SortedDistinct;
    CiksAreSet(f);
    NamesAreSet(f);
    TokenMeaning(f);
    DashesDropped(f.accession);
    NothingToSort(Ciks(f.parties));
    NothingToSort(Names(f.parties));
    match IdentityOf(f)
    case ByCiks(_) => Glue(f.baseForm, ":cik:", "cik:", Join(SortedDistinct(Ciks(f.parties)), '|'));
    case ByNames(_) => Glue(f.baseForm, ":name:", "name:", Join(SortedDistinct(Names(f.parties)), '|'));
    case ByDocument(words) => Glue(f.baseForm, ":doc:", "doc:", words);
    case ByAccession(number) => Glue(f.baseForm, ":accession:", "accession:", number);
  }

  lemma Glue(base: string, tag: string, bare: string, rest: string)
    requires tag == ":" + bare
    ensures base + tag + rest == base + ":" + (bare + rest)
  {
  }

  lemma NothingToSort(a: seq<string>)
    ensures SortedDistinct(a) == [] <==> a == []
  {
    hide LexLe;
    SortedDistinctFacts(a);
    if a != [] { assert a[0] in SortedDistinct(a); }
  }

  /** Joined without their separator inside, two sets of texts give the same text exactly when they are the same. */
  lemma JoinedSets(a: seq<string>, b: seq<string>)
    requires a != [] && b != [] && (forall y :: y in a ==> '|' !in y) && forall y :: y in b ==> '|' !in y
    ensures Join(SortedDistinct(a), '|') == Join(SortedDistinct(b), '|') <==> forall y :: y in a <==> y in b
  {
    hide Join, LexLe, SortedDistinct;
    SortedDistinctFacts(a);
    SortedDistinctFacts(b);
    assert a[0] in SortedDistinct(a) && b[0] in SortedDistinct(b);
    SplitJoin(SortedDistinct(a), '|');
    SplitJoin(SortedDistinct(b), '|');
    if forall y :: y in a <==> y in b { SameSetSameSorted(a, b); }
  }

  lemma RestStarts(f: Facts)
    ensures Rest(f) != ""
    ensures Rest(f)[0] ==
            match IdentityOf(f)
            case ByCiks(_) => 'c'
            case ByNames(_) => 'n'
            case ByDocument(_) => 'd'
            case ByAccession(_) => 'a'
  {
    hide IdentityOf, Join, SortedDistinct, Ciks, Names;
  }

  lemma SameRestExactlyWhen(f: Facts, g: Facts)
    requires Separable(f) && Separable(g)
    ensures Rest(f) == Rest(g) <==> IdentityOf(f) == IdentityOf(g)
  {
    RestStarts(f);
    RestStarts(g);
    CiksAreSet(f);
    CiksAreSet(g);
    NamesAreSet(f);
    NamesAreSet(g);
    IdentitySets(f);
    IdentitySets(g);
    hide IdentityOf, Join, SortedDistinct, Ciks, Names, CikSet, NameSet;
    match (IdentityOf(f), IdentityOf(g))
    case (ByCiks(_), ByCiks(_)) =>
      JoinedSets(Ciks(f.parties), Ciks(g.parties));
      SameTail("cik:", Join(SortedDistinct(Ciks(f.parties)), '|'), Join(SortedDistinct(Ciks(g.parties)), '|'));
    case (ByNames(_), ByNames(_)) =>
      JoinedSets(Names(f.parties), Names(g.parties));
      SameTail("name:", Join(SortedDistinct(Names(f.parties)), '|'), Join(SortedDistinct(Names(g.parties)), '|'));
    case (ByDocument(x), ByDocument(y)) => SameTail("doc:", x, y);
    case (ByAccession(x), ByAccession(y)) => SameTail("accession:", x, y);
    case _ =>
  }

  lemma IdentitySets(f: Facts)
    ensures IdentityOf(f).ByCiks? ==> IdentityOf(f).ciks == CikSet(f) != {}
    ensures IdentityOf(f).ByNames? ==> IdentityOf(f).names == NameSet(f) != {}
  {
  }

  lemma SameTail(prefix: string, a: string, b: string)
    ensures prefix + a == prefix + b <==> a == b
  {
    if prefix + a == prefix + b { SamePrefix(prefix, a, b); }
  }

  /** Uncut keys agree exactly when base form and identity do. */
  lemma SameFullKeyExactlyWhenSameIdentity(f: Facts, g: Facts)
    requires Separable(f) && Separable(g)
    ensures FullKey(f) == FullKey(g) <==> f.baseForm == g.baseForm && IdentityOf(f) == IdentityOf(g)
  {
    hide FullKey, IdentityOf, Rest;
    KeyIsRest(f);
    KeyIsRest(g);
    SameRestExactlyWhen(f, g);
    if FullKey(f) == FullKey(g) { CutsOnce(f.baseForm, Rest(f), g.baseForm, Rest(g), ':'); }
  }

  /** So do the keys used, while both are within the length. */
  lemma SameKeyExactlyWhenSameIdentity(f: Facts, g: Facts)
    requires Separable(f) && Separable(g) && |FullKey(f)| <= 180 && |FullKey(g)| <= 180
    ensures BuildChainKey(f) == BuildChainKey(g) <==> f.baseForm == g.baseForm && IdentityOf(f) == IdentityOf(g)
  {
    hide FullKey, IdentityOf;
    SameFullKeyExactlyWhenSameIdentity(f, g);
  }
}
