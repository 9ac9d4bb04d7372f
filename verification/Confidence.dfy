/** The confidence a standardised result carries: its score in hundredths, its label, its reasons and its flags. */
module Confidence {
  import opened Ordering
  import opened Text

  datatype Status = Supported | Partial | ByProxy | InsufficientData | Unsupported

  /** What speaks against a result: missing fields, proxies used, stale inputs, and the sector's verdict. */
  datatype Evidence = Evidence(missing: seq<string>, proxied: bool, stale: bool, sector: Status)

  datatype Label = VeryLow | Low | Moderate | High

  datatype Flag = PartialInputs | ProxyUsed | MissingInputs | StaleUsed | SectorUnsupported | SectorCaution

  datatype Reason =
    | Core(status: Status)
    | FieldsMissing(fields: seq<string>)
    | ProxiesUsed
    | InputsStale
    | SectorLimits

  function Base(status: Status): int {
    match status
    case Supported => 90
    case Partial => 65
    case ByProxy => 50
    case InsufficientData => 20
    case Unsupported => 0
  }

  function Penalty(e: Evidence): nat {
    (if e.missing == [] then 0 else if |e.missing| == 1 then 5 else 15) +
    (if e.proxied then 10 else 0) + (if e.stale then 10 else 0) + (if e.sector == Partial then 10 else 0)
  }

  /** What is left of the base, never below zero. */
  function Score(status: Status, e: Evidence): (r: nat)
    ensures r <= Base(status)
  {
    if Base(status) < Penalty(e) then 0 else Base(status) - Penalty(e)
  }

  function LabelOf(score: int): Label {
    if score >= 85 then High else if score >= 65 then Moderate else if score >= 35 then Low else VeryLow
  }

  function Rank(l: Label): nat {
    match l case VeryLow => 0 case Low => 1 case Moderate => 2 case High => 3
  }

  function AddIf<T>(s: seq<T>, b: bool, x: T): seq<T> {
    if b then s + [x] else s
  }

  function Reasons(status: Status, e: Evidence): seq<Reason> {
    AddIf(AddIf(AddIf(AddIf([Core(status)],
      e.missing != [], FieldsMissing(e.missing)), e.proxied, ProxiesUsed), e.stale, InputsStale),
      e.sector == Partial, SectorLimits)
  }

  function Flags(status: Status, e: Evidence): seq<Flag> {
    AddIf(AddIf(AddIf(AddIf(AddIf(AddIf([],
      status == Partial, PartialInputs), e.proxied, ProxyUsed), e.missing != [], MissingInputs), e.stale, StaleUsed),
      e.sector == Unsupported, SectorUnsupported), e.sector == Partial, SectorCaution)
  }

  function Say(wording: Reason -> string, reasons: seq<Reason>): seq<string> {
    seq(|reasons|, i requires 0 <= i < |reasons| => wording(reasons[i]))
  }

  /** Score and reasons, as the source builds them: a base that is reduced step by step. */
  method ConfidenceProfile(
      wording: Reason -> string, status: Status, e: Evidence) returns (score: int, reasons: seq<string>)
    ensures score == Score(status, e)
    ensures reasons == Deduped(Say(wording, Reasons(status, e)))
  {
    hide Deduped, Say;
    var base := Base(status);
    var found := [Core(status)];
    if e.missing != [] {
      base := base - (if |e.missing| == 1 then 5 else 15);
      found := found + [FieldsMissing(e.missing)];
    }
    if e.proxied {
      base := base - 10;
      found := found + [ProxiesUsed];
    }
    if e.stale {
      base := base - 10;
      found := found + [InputsStale];
    }
    if e.sector == Partial {
      base := base - 10;
      found := found + [SectorLimits];
    }
    score := if base < 0 then 0 else if base > 100 then 100 else base;
    reasons := Dedupe(Say(wording, found));
  }

  // ----- the order of evidence -----

  /** The second evidence speaks against the result at least as much as the first. */
  ghost predicate Worse(e: Evidence, f: Evidence) {
    && Distinct(e.missing) && Distinct(f.missing) && (forall x :: x in e.missing ==> x in f.missing)
    && (e.proxied ==> f.proxied) && (e.stale ==> f.stale) && (e.sector == Partial ==> f.sector == Partial)
  }

  /** More evidence against a result never raises its score or its label, whatever the status. */
  lemma ConfidenceIsAntitone(status: Status, e: Evidence, f: Evidence)
    requires Worse(e, f)
    ensures Score(status, f) <= Score(status, e)
    ensures Rank(LabelOf(Score(status, f))) <= Rank(LabelOf(Score(status, e)))
  {
    DistinctIncluded(e.missing, f.missing);
  }

  /** High confidence is exactly a supported status with at most one missing field and nothing else against it. */
  lemma HighExactlyWhen(status: Status, e: Evidence)
    ensures LabelOf(Score(status, e)) == High <==>
            status == Supported && |e.missing| <= 1 && !e.proxied && !e.stale && e.sector != Partial
  {
    if |e.missing| == 0 { assert e.missing == []; }
  }

  /** A result keeps its status's whole score exactly when it raises no flag but those of its own status and of an
      unsupported sector, which costs nothing; or when there was nothing to lose. */
  lemma WholeScoreExactlyWhen(status: Status, e: Evidence)
    ensures Score(status, e) == Base(status) <==>
            Base(status) == 0 || forall f :: f in Flags(status, e) ==> f == PartialInputs || f == SectorUnsupported
  {
    hide Flags;
    FlagsSay(status, e);
  }

  /** Each flag says exactly one thing about the evidence. */
  lemma FlagsSay(status: Status, e: Evidence)
    ensures PartialInputs in Flags(status, e) <==> status == Partial
    ensures ProxyUsed in Flags(status, e) <==> e.proxied
    ensures MissingInputs in Flags(status, e) <==> e.missing != []
    ensures StaleUsed in Flags(status, e) <==> e.stale
    ensures SectorUnsupported in Flags(status, e) <==> e.sector == Unsupported
    ensures SectorCaution in Flags(status, e) <==> e.sector == Partial
  {
    hide AddIf;
    forall f: Flag ensures f in Flags(status, e) <==>
      match f
      case PartialInputs => status == Partial
      case ProxyUsed => e.proxied
      case MissingInputs => e.missing != []
      case StaleUsed => e.stale
      case SectorUnsupported => e.sector == Unsupported
      case SectorCaution => e.sector == Partial
    {
      AddIfMember<Flag>([], status == Partial, PartialInputs, f);
      var s1 := AddIf<Flag>([], status == Partial, PartialInputs);
      AddIfMember(s1, e.proxied, ProxyUsed, f);
      var s2 := AddIf(s1, e.proxied, ProxyUsed);
      AddIfMember(s2, e.missing != [], MissingInputs, f);
      var s3 := AddIf(s2, e.missing != [], MissingInputs);
      AddIfMember(s3, e.stale, StaleUsed, f);
      var s4 := AddIf(s3, e.stale, StaleUsed);
      AddIfMember(s4, e.sector == Unsupported, SectorUnsupported, f);
      AddIfMember(AddIf(s4, e.sector == Unsupported, SectorUnsupported), e.sector == Partial, SectorCaution, f);
    }
  }

  lemma AddIfMember<T>(s: seq<T>, b: bool, x: T, y: T)
    ensures y in AddIf(s, b, x) <==> y in s || (b && y == x)
  {
  }

  // ----- removing repeated texts -----

  /** Stripped, non-empty, first occurrences only, in order. */
  function Deduped(items: seq<string>): seq<string> {
    if items == [] then []
    else
      var before := Deduped(items[..|items| - 1]);
      var text := Strip(items[|items| - 1]);
      if text == "" || text in before then before else before + [text]
  }

  method Dedupe(items: seq<string>) returns (ordered: seq<string>)
    ensures ordered == Deduped(items)
  {
    hide Strip;
    ordered := [];
    var seen: set<string> := {};
    for i := 0 to |items|
      invariant ordered == Deduped(items[..i]) && forall x :: x in seen <==> x in ordered
    {
      assert items[..i + 1][..i] == items[..i];
      var text := Strip(items[i]);
      if text != "" && text !in seen {
        seen := seen + {text};
        ordered := ordered + [text];
      }
    }
    assert items[..|items|] == items;
  }

  lemma {:induction false} DedupedFacts(items: seq<string>)
    ensures Distinct(Deduped(items))
    ensures forall x :: x in Deduped(items) <==> x != "" && exists y :: y in items && x == Strip(y)
  {
    hide Strip;
    if items != [] {
      var last := items[|items| - 1];
      DedupedFacts(items[..|items| - 1]);
      assert items == items[..|items| - 1] + [last];
    }
  }

  ghost predicate Stripped(x: string) {
    x != "" && Strip(x) == x
  }

  lemma {:induction false} DedupedOfClean(items: seq<string>)
    requires Distinct(items) && forall i :: 0 <= i < |items| ==> Stripped(items[i])
    ensures Deduped(items) == items
  {
    hide Strip;
    if items != [] {
      var before := items[..|items| - 1];
      assert Stripped(items[|items| - 1]);
      DedupedOfClean(before);
      assert items[|items| - 1] !in before;
      assert items == before + [items[|items| - 1]];
    }
  }

  /** Deduplicating again changes nothing. */
  lemma DedupedTwice(items: seq<string>)
    ensures Deduped(Deduped(items)) == Deduped(items)
  {
    hide Strip, Deduped;
    DedupedFacts(items);
    forall i | 0 <= i < |Deduped(items)| ensures Stripped(Deduped(items)[i]) {
      assert Deduped(items)[i] in Deduped(items);
      var y :| y in items && Deduped(items)[i] == Strip(y);
      StripTrims(y);
    }
    DedupedOfClean(Deduped(items));
  }

  /** The first item that strips to something comes first, so a summary's headline is the first reason said. */
  lemma {:induction false} DedupedStartsWith(items: seq<string>)
    requires items != [] && Strip(items[0]) != ""
    ensures Deduped(items) != [] && Deduped(items)[0] == Strip(items[0])
  {
    hide Strip;
    if |items| > 1 {
      DedupedStartsWith(items[..|items| - 1]);
    } else {
      assert items[..0] == [];
    }
  }

  /** Whatever else is said against a result, its reasons, and so the headline, begin with the status's own. */
  lemma HeadlineIsCoreReason(wording: Reason -> string, status: Status, e: Evidence)
    requires Strip(wording(Core(status))) != ""
    ensures var reasons := Deduped(Say(wording, Reasons(status, e)));
            reasons != [] && reasons[0] == Strip(wording(Core(status)))
  {
    hide Strip, Deduped;
    DedupedStartsWith(Say(wording, Reasons(status, e)));
  }
}
