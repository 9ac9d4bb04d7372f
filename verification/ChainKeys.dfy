/** The amendment chain key of a beneficial ownership report, from its parties, document name or accession number. */
module ChainKeys {
  import opened Ordering
  import opened Text
  import opened Wrappers

  datatype Party = Party(name: string, cik: Option<string>)

  /** The immutable part of a report. Dates are ordinals; 1 is the smallest. */
  datatype Facts = Facts(
    accession: string, baseForm: string, filingDate: Option<int>, reportDate: Option<int>,
    primaryDocument: Option<string>, parties: seq<Party>)

  /** Collapse each run of white space to one blank. */
  function CollapseSpaces(s: string): string {
    if s == [] then []
    else if !IsSpace(s[0]) then [s[0]] + CollapseSpaces(s[1..])
    else if |s| > 1 && IsSpace(s[1]) then CollapseSpaces(s[1..])
    else [' '] + CollapseSpaces(s[1..])
  }

  function NormalizeChainName(name: string): string {
    CollapseSpaces(Lower(Strip(name)))
  }

  function Ciks(parties: seq<Party>): (r: seq<string>)
    ensures forall y :: y in r <==> y != "" && exists p :: p in parties && p.cik == Some(y)
  {
    if parties == [] then [] else
      var rest := Ciks(parties[1..]);
      assert parties[0] in parties && forall p :: p in parties <==> p == parties[0] || p in parties[1..];
      if parties[0].cik.Some? && parties[0].cik.value != "" then [parties[0].cik.value] + rest else rest
  }

  function Names(parties: seq<Party>): (r: seq<string>)
    ensures forall y :: y in r <==> y != "" && exists p ::
            p in parties && Strip(p.name) != "" && NormalizeChainName(p.name) == y
  {
    if parties == [] then [] else
      var rest := Names(parties[1..]);
      assert parties[0] in parties && forall p :: p in parties <==> p == parties[0] || p in parties[1..];
      var name := NormalizeChainName(parties[0].name);
      if Strip(parties[0].name) != "" && name != "" then [name] + rest else rest
  }

  function LastIndexOf(s: string, c: char): (r: int)
    ensures -1 <= r < |s|
  {
    if s == [] then -1 else if s[|s| - 1] == c then |s| - 1 else LastIndexOf(s[..|s| - 1], c)
  }

  /** `os.path.splitext(name)[0]`: an extension needs a character before its dot, after the last slash. */
  function Stem(name: string): string {
    var dot, slash := LastIndexOf(name, '.'), LastIndexOf(name, '/');
    if dot > slash && exists i :: slash < i < dot && name[i] != '.' then name[..dot] else name
  }

  predicate IsAlnum(c: char) {
    'a' <= c <= 'z' || '0' <= c <= '9'
  }

  /** Replace each run of other characters by one dash. */
  function Dashed(s: string): string {
    if s == [] then []
    else if IsAlnum(s[0]) then [s[0]] + Dashed(s[1..])
    else if |s| > 1 && !IsAlnum(s[1]) then Dashed(s[1..])
    else ['-'] + Dashed(s[1..])
  }

  function TrimDashes(s: string): string
    decreases |s|
  {
    if s != [] && s[0] == '-' then TrimDashes(s[1..])
    else if s != [] && s[|s| - 1] == '-' then TrimDashes(s[..|s| - 1])
    else s
  }

  function Truncated(s: string, n: nat): string {
    if |s| <= n then s else s[..n]
  }

  function DocumentToken(document: Option<string>): Option<string> {
    if document == None || document.value == "" then None else
      var token := TrimDashes(Dashed(Lower(Stem(document.value))));
      if |token| < 4 then None else Some(Truncated(token, 96))
  }

  function WithoutDashes(s: string): string {
    if s == [] then [] else (if s[0] == '-' then [] else [s[0]]) + WithoutDashes(s[1..])
  }

  const KEY_LENGTH := 180

  /** The key before truncation. */
  function FullKey(f: Facts): string {
    var ciks, names := SortedDistinct(Ciks(f.parties)), SortedDistinct(Names(f.parties));
    var token := DocumentToken(f.primaryDocument);
    if ciks != [] then f.baseForm + ":cik:" + Join(ciks, '|')
    else if names != [] then f.baseForm + ":name:" + Join(names, '|')
    else if token.Some? then f.baseForm + ":doc:" + token.value
    else f.baseForm + ":accession:" + WithoutDashes(f.accession)
  }

  function BuildChainKey(f: Facts): string {
    Truncated(FullKey(f), KEY_LENGTH)
  }

  /** The key depends on the set of parties, not on their order or repetition. */
  lemma KeyIgnoresPartyOrder(f: Facts, g: Facts)
    requires g == f.(parties := g.parties) && forall p :: p in f.parties <==> p in g.parties
    ensures BuildChainKey(f) == BuildChainKey(g)
  {
    hide NormalizeChainName, Strip;
    SameSetSameSorted(Ciks(f.parties), Ciks(g.parties));
    SameSetSameSorted(Names(f.parties), Names(g.parties));
  }

  // ----- what a key identifies -----

  /** A base form without a colon, and CIKs without the bar that separates them. */
  predicate PlainForKey(f: Facts) {
    ':' !in f.baseForm && forall y :: y in Ciks(f.parties) ==> '|' !in y
  }

  function CikPart(f: Facts): string {
    "cik:" + Join(SortedDistinct(Ciks(f.parties)), '|')
  }

  /** A full key is the base form, a colon and a rest that tells by its first letter what identifies the report. */
  lemma FullKeyParts(f: Facts) returns (rest: string)
    ensures FullKey(f) == f.baseForm + ":" + rest
    ensures Ciks(f.parties) != [] ==> rest == CikPart(f)
    ensures Ciks(f.parties) == [] ==> rest != [] && rest[0] != 'c'
  {
    hide Join, Strip, DocumentToken, WithoutDashes, NormalizeChainName;
    SortedDistinctFacts(Ciks(f.parties));
    assert Ciks(f.parties) != [] ==> Ciks(f.parties)[0] in SortedDistinct(Ciks(f.parties));
    var key := FullKey(f);
    rest := key[|f.baseForm| + 1..];
    assert key[|f.baseForm|] == ':' && key[..|f.baseForm|] == f.baseForm;
    assert key == key[..|f.baseForm|] + [key[|f.baseForm|]] + rest;
  }

  lemma SameJoinSameCiks(f: Facts, g: Facts)
    requires PlainForKey(f) && PlainForKey(g) && Ciks(f.parties) != [] && Ciks(g.parties) != []
    requires CikPart(f) == CikPart(g)
    ensures SortedDistinct(Ciks(f.parties)) == SortedDistinct(Ciks(g.parties))
  {
    hide Join, SortedDistinct, Ciks;
    var a, b := SortedDistinct(Ciks(f.parties)), SortedDistinct(Ciks(g.parties));
    SortedDistinctFacts(Ciks(f.parties));
    SortedDistinctFacts(Ciks(g.parties));
    assert Ciks(f.parties)[0] in a && Ciks(g.parties)[0] in b;
    assert Join(a, '|') == CikPart(f)[4..] && Join(b, '|') == CikPart(g)[4..];
    SplitJoin(a, '|');
    SplitJoin(b, '|');
  }

  ghost predicate SameCiks(f: Facts, g: Facts) {
    forall y :: y in Ciks(f.parties) <==> y in Ciks(g.parties)
  }

  /** Uncut keys identify: with party CIKs on one side, they agree exactly for the same base form and set of CIKs. */
  lemma SameFullKeyExactlyWhenSameCiks(f: Facts, g: Facts)
    requires PlainForKey(f) && PlainForKey(g) && Ciks(f.parties) != []
    ensures FullKey(f) == FullKey(g) <==> f.baseForm == g.baseForm && SameCiks(f, g)
  {
    hide FullKey, CikPart, Ciks, SortedDistinct;
    var x := FullKeyParts(f);
    var y := FullKeyParts(g);
    if FullKey(f) == FullKey(g) {
      CutsOnce(f.baseForm, x, g.baseForm, y, ':');
      CikPartStarts(f);
      SameJoinSameCiks(f, g);
      SortedDistinctFacts(Ciks(f.parties));
      SortedDistinctFacts(Ciks(g.parties));
    } else if SameCiks(f, g) {
      assert Ciks(f.parties)[0] in Ciks(g.parties);
      SameSetSameSorted(Ciks(f.parties), Ciks(g.parties));
      SameCikPart(f, g);
    }
  }

  /**
   Two reports, one of them with party CIKs, share a key exactly for the same base form and set of CIKs, unless both
   full keys reach the limit and one of them is cut.
   */
  lemma SameKeyExactlyWhenSameCiks(f: Facts, g: Facts)
    requires PlainForKey(f) && PlainForKey(g) && Ciks(f.parties) != []
    requires |FullKey(f)| < KEY_LENGTH || |FullKey(g)| < KEY_LENGTH || |FullKey(f)| == |FullKey(g)| == KEY_LENGTH
    ensures BuildChainKey(f) == BuildChainKey(g) <==> f.baseForm == g.baseForm && SameCiks(f, g)
  {
    hide FullKey, Ciks;
    SameFullKeyExactlyWhenSameCiks(f, g);
  }

  lemma CikPartStarts(f: Facts)
    ensures CikPart(f)[0] == 'c'
  {
  }

  lemma SameCikPart(f: Facts, g: Facts)
    requires SortedDistinct(Ciks(f.parties)) == SortedDistinct(Ciks(g.parties))
    ensures CikPart(f) == CikPart(g)
  {
  }

  lemma {:induction false} JoinSnoc(parts: seq<string>, last: string, sep: char)
    requires parts != []
    ensures Join(parts + [last], sep) == Join(parts, sep) + [sep] + last
  {
    if |parts| == 1 {
      assert parts + [last] == [parts[0], last] && (parts + [last])[1..] == [last];
    } else {
      assert (parts + [last])[1..] == parts[1..] + [last];
      JoinSnoc(parts[1..], last, sep);
    }
  }

  /** The exception: once the key is full, a further party, last in the order, no longer changes it. */
  lemma FullKeysForgetLaterParties(f: Facts, g: Facts, later: string)
    requires f.baseForm == g.baseForm && Ciks(f.parties) != [] && |FullKey(f)| >= KEY_LENGTH
    requires SortedDistinct(Ciks(g.parties)) == SortedDistinct(Ciks(f.parties)) + [later]
    ensures BuildChainKey(f) == BuildChainKey(g)
    ensures later in Ciks(g.parties) && later !in Ciks(f.parties)
  {
    hide Join, Ciks, SortedDistinct, DocumentToken, WithoutDashes, Names;
    var a := SortedDistinct(Ciks(f.parties));
    SortedDistinctFacts(Ciks(f.parties));
    SortedDistinctFacts(Ciks(g.parties));
    assert Ciks(f.parties)[0] in a;
    JoinSnoc(a, later, '|');
    assert FullKey(g) == FullKey(f) + ['|'] + later;
    var b := SortedDistinct(Ciks(g.parties));
    assert b[|a|] == later;
    forall i | 0 <= i < |a| ensures a[i] != later { assert b[i] == a[i]; }
  }

  lemma CiksSnoc(parties: seq<Party>, later: Party)
    ensures forall y :: y in Ciks(parties + [later]) <==> y in Ciks(parties) || (y != "" && later.cik == Some(y))
  {
    hide Ciks;
    assert forall p :: p in parties + [later] <==> p in parties || p == later;
  }

  lemma {:induction false} LexExtends(a: string, b: string)
    ensures LexLe(a, a + b)
  {
    if a != [] {
      assert (a + b)[1..] == a[1..] + b;
      LexExtends(a[1..], b);
    }
  }

  lemma StrictlySortedSnoc(a: seq<string>, later: string)
    requires StrictlySorted(a) && (a != [] ==> LexLe(a[|a| - 1], later) && a[|a| - 1] != later)
    ensures StrictlySorted(a + [later])
  {
    hide LexLe;
    forall i | 0 <= i < |a| ensures LexLe(a[i], later) && a[i] != later {
      if i < |a| - 1 {
        LexTransitive(a[i], a[|a| - 1], later);
        if a[i] == later { LexAntisymmetric(a[|a| - 1], later); }
      }
    }
  }

  /** The report with one more party, whose CIK comes after all others. */
  function WithLaterParty(f: Facts, later: string): Facts {
    f.(parties := f.parties + [Party("", Some(later))])
  }

  /** Once the key is full, some report with one party more shares it. */
  lemma FullKeysCollide(f: Facts) returns (g: Facts)
    requires PlainForKey(f) && Ciks(f.parties) != [] && |FullKey(f)| >= KEY_LENGTH
    ensures PlainForKey(g) && BuildChainKey(g) == BuildChainKey(f) && !SameCiks(f, g)
  {
    hide Ciks, SortedDistinct, FullKey, LexLe;
    var a := SortedDistinct(Ciks(f.parties));
    SortedDistinctFacts(Ciks(f.parties));
    assert Ciks(f.parties)[0] in a;
    var last := a[|a| - 1];
    assert last in a;
    var later := last + "0";
    LexExtends(last, "0");
    StrictlySortedSnoc(a, later);
    g := WithLaterParty(f, later);
    CiksSnoc(f.parties, Party("", Some(later)));
    forall y ensures y in Ciks(g.parties) <==> y in a + [later] {}
    SortedFormIs(Ciks(g.parties), a + [later]);
    FullKeysForgetLaterParties(f, g, later);
  }

  /**
   The exact condition: the key of a report with party CIKs identifies its base form and set of CIKs among all reports
   if and only if the full key is shorter than the limit.
   */
  lemma KeyIdentifiesExactlyWhenShort(f: Facts)
    requires PlainForKey(f) && Ciks(f.parties) != []
    ensures (forall g :: PlainForKey(g) && BuildChainKey(g) == BuildChainKey(f) ==>
              g.baseForm == f.baseForm && SameCiks(f, g)) <==> |FullKey(f)| < KEY_LENGTH
  {
    hide PlainForKey, BuildChainKey, FullKey, SameCiks, Ciks;
    if |FullKey(f)| < KEY_LENGTH {
      forall g | PlainForKey(g) && BuildChainKey(g) == BuildChainKey(f)
        ensures g.baseForm == f.baseForm && SameCiks(f, g)
      {
        SameKeyExactlyWhenSameCiks(f, g);
      }
    } else {
      var g := FullKeysCollide(f);
    }
  }

  // ----- a collision -----

  /** Ten-digit CIKs ending in two running digits. */
  function RunningCik(i: nat): string
    requires i < 100
  {
    "10000000" + TwoDigits(i)
  }

  function TwoDigits(i: nat): (r: string)
    requires i < 100
    ensures |r| == 2
  {
    [('0' as int + i / 10) as char, ('0' as int + i % 10) as char]
  }

  function RunningParties(n: nat): (r: seq<Party>)
    requires n <= 100
    ensures |r| == n
  {
    seq(n, i requires 0 <= i < n => Party("", Some(RunningCik(i))))
  }

  function RunningCiks(n: nat): (r: seq<string>)
    requires n <= 100
    ensures |r| == n && forall i :: 0 <= i < n ==> r[i] == RunningCik(i)
  {
    seq(n, i requires 0 <= i < n => RunningCik(i))
  }

  /** A filing by a group of `n` filers. */
  function GroupFiling(n: nat): Facts
    requires n <= 100
  {
    Facts("0000000000-26-000001", "SC 13D", None, None, None, RunningParties(n))
  }

  lemma {:induction false} LexPrefix(prefix: string, a: string, b: string)
    ensures LexLe(prefix + a, prefix + b) <==> LexLe(a, b)
  {
    if prefix == [] {
      assert prefix + a == a && prefix + b == b;
    } else {
      assert (prefix + a)[1..] == prefix[1..] + a && (prefix + b)[1..] == prefix[1..] + b;
      LexPrefix(prefix[1..], a, b);
    }
  }

  lemma TwoDigitsAreOrdered(i: nat, j: nat)
    requires i < j < 100
    ensures LexLe(TwoDigits(i), TwoDigits(j)) && TwoDigits(i) != TwoDigits(j)
  {
    var a, b := TwoDigits(i), TwoDigits(j);
    assert a[1..] == [a[1]] && b[1..] == [b[1]];
    assert i / 10 <= j / 10;
  }

  lemma RunningCiksAreSorted(n: nat)
    requires n <= 100
    ensures StrictlySorted(RunningCiks(n))
  {
    hide LexLe, TwoDigits;
    forall i, j | 0 <= i < j < n ensures LexLe(RunningCik(i), RunningCik(j)) && RunningCik(i) != RunningCik(j) {
      TwoDigitsAreOrdered(i, j);
      LexPrefix("10000000", TwoDigits(i), TwoDigits(j));
      if RunningCik(i) == RunningCik(j) { SamePrefix("10000000", TwoDigits(i), TwoDigits(j)); }
    }
  }

  lemma {:induction false} JoinLength(parts: seq<string>, width: nat, sep: char)
    requires forall i :: 0 <= i < |parts| ==> |parts[i]| == width
    ensures parts != [] ==> |Join(parts, sep)| == |parts| * (width + 1) - 1
  {
    if |parts| > 1 {
      JoinLength(parts[1..], width, sep);
      assert |parts| * (width + 1) == (width + 1) + |parts[1..]| * (width + 1);
    }
  }

  lemma GroupFilingCiks(n: nat)
    requires n <= 100
    ensures SortedDistinct(Ciks(GroupFiling(n).parties)) == RunningCiks(n)
    ensures n > 0 ==> Ciks(GroupFiling(n).parties) != []
    ensures PlainForKey(GroupFiling(n))
  {
    hide Ciks, SortedDistinct, TwoDigits;
    var parties, a := RunningParties(n), RunningCiks(n);
    forall y ensures y in Ciks(parties) <==> y in a {
      if y in a {
        var i :| 0 <= i < n && a[i] == y;
        assert parties[i] in parties && parties[i].cik == Some(y);
      }
    }
    RunningCiksAreSorted(n);
    SortedFormIs(Ciks(parties), a);
    if n > 0 { assert a[0] in Ciks(parties); }
    forall i | 0 <= i < n ensures '|' !in RunningCik(i) { DigitsOnly(i); }
  }

  lemma DigitsOnly(i: nat)
    requires i < 100
    ensures '|' !in RunningCik(i)
  {
  }

  /** Concretely: a filing by seventeen filers and one by eighteen have the same chain key. */
  lemma SeventeenAndEighteenFilersCollide()
    ensures BuildChainKey(GroupFiling(17)) == BuildChainKey(GroupFiling(18))
    ensures !SameCiks(GroupFiling(17), GroupFiling(18))
  {
    hide Ciks, SortedDistinct, RunningCik, LexLe;
    GroupFilingCiks(17);
    GroupFilingCiks(18);
    assert RunningCiks(18) == RunningCiks(17) + [RunningCik(17)];
    GroupKeyIsFull();
    FullKeysForgetLaterParties(GroupFiling(17), GroupFiling(18), RunningCik(17));
  }

  lemma GroupKeyIsFull()
    ensures |FullKey(GroupFiling(17))| >= KEY_LENGTH
  {
    hide Ciks, SortedDistinct, TwoDigits, Join, RunningParties, RunningCiks;
    GroupFilingCiks(17);
    JoinLength(RunningCiks(17), 10, '|');
  }
}
