/**
 Source contracts: the validator a contract passes when it is declared, and the separate check that re-derives the
 sources of a response payload and compares them with the contract.
 */
module SourceContracts {
  import opened Ordering
  import opened Provenance
  import opened Text
  import opened Wrappers

  datatype StrictBehavior = NotApplicable | OfficialOnly | DropCommercialFallbackInputs

  datatype Contract = Contract(allowed: seq<string>, fallbackPermitted: bool, strictBehavior: StrictBehavior)

  datatype ContractError = DuplicateSources | UnknownSources(ids: seq<string>) | FallbackNotPermitted(ids: seq<string>)

  /** Every allowed id once, known, and fallback sources only where fallback is permitted. */
  ghost predicate ValidContract(registry: Registry, c: Contract) {
    Distinct(c.allowed) && (forall id :: id in c.allowed ==> id in registry) &&
    (c.fallbackPermitted || forall id :: id in c.allowed && id in registry ==> !IsFallbackTier(registry[id].tier))
  }

  function Deduplicated(ids: seq<string>): (r: seq<string>)
    ensures Distinct(r) && (forall id :: id in r <==> id in ids)
    ensures r == ids <==> Distinct(ids)
  {
    if ids == [] then [] else
      var n := |ids| - 1;
      var before := Deduplicated(ids[..n]);
      assert ids == ids[..n] + [ids[n]];
      assert |before| <= n by { DistinctIncluded(before, ids[..n]); }
      if ids[n] in before then before else before + [ids[n]]
  }

  predicate IsFallback(registry: Registry, id: string) {
    id in registry && IsFallbackTier(registry[id].tier)
  }

  method FallbackAmong(registry: Registry, ids: seq<string>) returns (fallback: seq<string>)
    ensures fallback == Filter(id => IsFallback(registry, id), ids)
  {
    fallback := [];
    for i := 0 to |ids|
      invariant fallback == Filter(id => IsFallback(registry, id), ids[..i])
    {
      assert ids[..i + 1] == ids[..i] + [ids[i]];
      FilterConcat(id => IsFallback(registry, id), ids[..i], [ids[i]]);
      if IsFallback(registry, ids[i]) {
        fallback := fallback + [ids[i]];
      }
    }
    assert ids[..|ids|] == ids;
  }

  /** The first fault in the source's order: repeats, then unknown ids, then fallback ids that are not permitted. */
  method ValidateAllowedSources(registry: Registry, c: Contract) returns (r: Result<Contract, ContractError>)
    ensures r.Ok? <==> ValidContract(registry, c)
    ensures r.Ok? ==> r.value == c
    ensures r == Err(DuplicateSources) <==> !Distinct(c.allowed)
    ensures r.Err? && r.error.UnknownSources? <==>
            Distinct(c.allowed) && exists id :: id in c.allowed && id !in registry
    ensures r.Err? && r.error.UnknownSources? ==> r.error.ids == Filter(id => id !in registry, c.allowed)
    ensures r.Err? && r.error.FallbackNotPermitted? ==> r.error.ids == Filter(id => IsFallback(registry, id), c.allowed)
  {
    hide Deduplicated, Filter;
    if Deduplicated(c.allowed) != c.allowed {
      return Err(DuplicateSources);
    }
    var invalid := Filter(id => id !in registry, c.allowed);
    if |invalid| != 0 {
      assert invalid[0] in invalid;
      return Err(UnknownSources(invalid));
    }
    forall id | id in c.allowed ensures id in registry { assert id !in invalid; }
    var fallback := FallbackAmong(registry, c.allowed);
    if |fallback| != 0 && !c.fallbackPermitted {
      assert fallback[0] in fallback;
      return Err(FallbackNotPermitted(fallback));
    }
    forall id | id in c.allowed && !c.fallbackPermitted
      ensures !IsFallbackTier(registry[id].tier) { assert id !in fallback; }
    return Ok(c);
  }

  // ----- the summary derived from the entries -----

  datatype SourceMix = SourceMix(
    sourceIds: seq<string>, tiers: set<Tier>, primaryIds: seq<string>, fallbackIds: seq<string>, officialOnly: bool)

  function IdsWhere(entries: seq<Entry>, p: Entry -> bool): (r: seq<string>)
    ensures forall id :: id in r <==> exists e :: e in entries && e.sourceId == id && id != "" && p(e)
  {
    if entries == [] then [] else
      var rest := IdsWhere(entries[1..], p);
      assert forall e :: e in entries <==> e == entries[0] || e in entries[1..];
      if entries[0].sourceId != "" && p(entries[0]) then [entries[0].sourceId] + rest else rest
  }

  function BuildSourceMix(entries: seq<Entry>): SourceMix {
    var fallback := IdsWhere(entries, (e: Entry) => IsFallbackTier(e.tier));
    var tiers := set e | e in entries :: e.tier;
    SourceMix(IdsWhere(entries, (e: Entry) => true), tiers, IdsWhere(entries, (e: Entry) => e.role == Primary),
              fallback, entries != [] && fallback == [] && forall t :: t in tiers ==> !IsFallbackTier(t))
  }

  // ----- the payload check -----

  /** A provenance row as the payload shows it. */
  datatype PayloadRow = PayloadRow(sourceId: Option<string>, sourceTier: Option<string>)

  /** A payload, as far as the check looks: absent parts are None. */
  datatype Payload = Payload(
    provenance: Option<seq<PayloadRow>>, mix: Option<SourceMix>, confidenceFlags: seq<string>, companyIsStrict: bool)

  datatype PayloadState = PayloadState(sourceIds: set<string>, fallbackIds: set<string>, strict: bool)

  datatype Violation =
    | Unauthorized(ids: set<string>)
    | FallbackExposed(ids: set<string>)
    | StrictExposed(ids: set<string>)

  function TierName(t: Tier): string {
    match t
    case OfficialRegulator => "official_regulator"
    case OfficialStatistical => "official_statistical"
    case OfficialTreasuryOrFed => "official_treasury_or_fed"
    case DerivedFromOfficial => "derived_from_official"
    case CommercialFallback => "commercial_fallback"
    case ManualOverride => "manual_override"
  }

  const FALLBACK_TIER_NAMES := {"commercial_fallback", "manual_override"}

  function CoerceString(text: Option<string>): Option<string> {
    if text.Some? && Strip(text.value) != "" then Some(Strip(text.value)) else None
  }

  function CoerceStrings(items: seq<string>): (r: seq<string>)
    ensures forall x :: x in r <==> x != "" && exists y :: y in items && Strip(y) == x
  {
    if items == [] then [] else
      var rest := CoerceStrings(items[1..]);
      assert forall y :: y in items <==> y == items[0] || y in items[1..];
      if Strip(items[0]) != "" then [Strip(items[0])] + rest else rest
  }

  predicate IsStrict(p: Payload) {
    "strict_official_mode" in CoerceStrings(p.confidenceFlags) || p.companyIsStrict
  }

  /** The source id a row contributes, and whether it counts as fallback. */
  predicate RowNames(row: PayloadRow, id: string) {
    CoerceString(row.sourceId) == Some(id)
  }

  predicate RowIsFallback(row: PayloadRow) {
    CoerceString(row.sourceTier).Some? && CoerceString(row.sourceTier).value in FALLBACK_TIER_NAMES
  }

  /** A row names its source id stripped, if it is not blank, and is fallback by its stripped tier. */
  lemma RowsByField(row: PayloadRow, id: string)
    ensures RowNames(row, id) <==> row.sourceId.Some? && Strip(row.sourceId.value) == id != ""
    ensures RowIsFallback(row) <==>
            row.sourceTier.Some? && Strip(row.sourceTier.value) in {"commercial_fallback", "manual_override"}
  {
    hide Strip;
  }

  ghost predicate NamedByMix(mix: Option<SourceMix>, id: string) {
    mix.Some? && (id in CoerceStrings(mix.value.sourceIds) || id in CoerceStrings(mix.value.primaryIds) ||
                  id in CoerceStrings(mix.value.fallbackIds))
  }

  ghost predicate NamedByRows(rows: seq<PayloadRow>, id: string) {
    exists row :: row in rows && RowNames(row, id)
  }

  ghost predicate FallbackByRows(rows: seq<PayloadRow>, id: string) {
    exists row :: row in rows && RowNames(row, id) && RowIsFallback(row)
  }

  /** The payload names this source, in its mix or its rows. */
  ghost predicate Names(p: Payload, id: string) {
    NamedByMix(p.mix, id) || (p.provenance.Some? && NamedByRows(p.provenance.value, id))
  }

  /** The payload shows this source as fallback. */
  ghost predicate ShowsFallback(p: Payload, id: string) {
    (p.mix.Some? && id in CoerceStrings(p.mix.value.fallbackIds)) ||
    (p.provenance.Some? && FallbackByRows(p.provenance.value, id))
  }

  /** `state` is what the payload says it used. */
  ghost predicate StateOf(p: Payload, state: Option<PayloadState>) {
    match state
    case None => p.provenance.None? && p.mix.None?
    case Some(s) =>
      (p.provenance.Some? || p.mix.Some?) && s.strict == IsStrict(p) &&
      (forall id :: id in s.sourceIds <==> Names(p, id)) && forall id :: id in s.fallbackIds <==> ShowsFallback(p, id)
  }

  lemma RowsSnoc(rows: seq<PayloadRow>, i: nat, id: string)
    requires i < |rows|
    ensures NamedByRows(rows[..i + 1], id) <==> NamedByRows(rows[..i], id) || RowNames(rows[i], id)
    ensures FallbackByRows(rows[..i + 1], id) <==>
            FallbackByRows(rows[..i], id) || (RowNames(rows[i], id) && RowIsFallback(rows[i]))
  {
    hide RowNames, RowIsFallback;
    assert rows[..i + 1] == rows[..i] + [rows[i]];
    assert forall row :: row in rows[..i + 1] <==> row in rows[..i] || row == rows[i];
  }

  method ScanRows(rows: seq<PayloadRow>) returns (sourceIds: set<string>, fallbackIds: set<string>)
    ensures forall id :: id in sourceIds <==> NamedByRows(rows, id)
    ensures forall id :: id in fallbackIds <==> FallbackByRows(rows, id)
  {
    hide CoerceString, NamedByRows, FallbackByRows;
    sourceIds, fallbackIds := {}, {};
    forall id
      ensures !NamedByRows(rows[..0], id) && !FallbackByRows(rows[..0], id) { NoRows(id); assert rows[..0] == []; }
    for i := 0 to |rows|
      invariant forall id :: id in sourceIds <==> NamedByRows(rows[..i], id)
      invariant forall id :: id in fallbackIds <==> FallbackByRows(rows[..i], id)
    {
      forall id
        ensures NamedByRows(rows[..i + 1], id) <==> NamedByRows(rows[..i], id) || RowNames(rows[i], id)
        ensures FallbackByRows(rows[..i + 1], id) <==>
                FallbackByRows(rows[..i], id) || (RowNames(rows[i], id) && RowIsFallback(rows[i]))
      {
        RowsSnoc(rows, i, id);
      }
      var sourceId := CoerceString(rows[i].sourceId);
      if sourceId.Some? {
        sourceIds := sourceIds + {sourceId.value};
        if RowIsFallback(rows[i]) {
          fallbackIds := fallbackIds + {sourceId.value};
        }
      }
    }
    assert rows[..|rows|] == rows;
  }

  lemma NoRows(id: string)
    ensures !NamedByRows([], id) && !FallbackByRows([], id)
  {
  }

  /** `_extract_payload_source_contract_state`. */
  method ExtractState(p: Payload) returns (state: Option<PayloadState>)
    ensures StateOf(p, state)
  {
    hide CoerceString, CoerceStrings, NamedByRows, FallbackByRows;
    if p.provenance.None? && p.mix.None? {
      return None;
    }
    var sourceIds: set<string>, fallbackIds: set<string> := {}, {};
    if p.mix.Some? {
      sourceIds := sourceIds + (set id | id in CoerceStrings(p.mix.value.sourceIds));
      sourceIds := sourceIds + (set id | id in CoerceStrings(p.mix.value.primaryIds));
      var fallback := set id | id in CoerceStrings(p.mix.value.fallbackIds);
      sourceIds := sourceIds + fallback;
      fallbackIds := fallbackIds + fallback;
    }
    if p.provenance.Some? {
      var rowIds, rowFallback := ScanRows(p.provenance.value);
      sourceIds := sourceIds + rowIds;
      fallbackIds := fallbackIds + rowFallback;
    }
    return Some(PayloadState(sourceIds, fallbackIds, IsStrict(p)));
  }

  /** The three checks, in order; a payload without provenance passes. */
  function CheckState(c: Contract, state: Option<PayloadState>): Result<(), Violation> {
    if state == None then Ok(())
    else
      var s := state.value;
      var unauthorized := set id | id in s.sourceIds && id !in c.allowed;
      if unauthorized != {} then Err(Unauthorized(unauthorized))
      else if s.fallbackIds != {} && !c.fallbackPermitted then Err(FallbackExposed(s.fallbackIds))
      else if c.strictBehavior == DropCommercialFallbackInputs && s.strict && s.fallbackIds != {}
        then Err(StrictExposed(s.fallbackIds))
      else Ok(())
  }

  method ValidatePayload(c: Contract, p: Payload) returns (r: Result<(), Violation>)
    ensures exists state :: StateOf(p, state) && r == CheckState(c, state)
    ensures Verdict(c, p, r)
  {
    var state := ExtractState(p);
    CheckMeaning(c, p, state);
    return CheckState(c, state);
  }

  ghost predicate AllAllowed(c: Contract, p: Payload) {
    forall id :: Names(p, id) ==> id in c.allowed
  }

  /**
   The verdict over any payload: sources outside the contract are reported first, all of them; then, all of them too,
   fallback sources a contract does not permit, or drops in strict mode; everything else passes.
   */
  ghost predicate Verdict(c: Contract, p: Payload, r: Result<(), Violation>) {
    var exposed := exists id :: ShowsFallback(p, id);
    var flagged := exists flag :: flag in p.confidenceFlags && Strip(flag) == "strict_official_mode";
    var drops := c.strictBehavior == DropCommercialFallbackInputs && (flagged || p.companyIsStrict);
    match r
    case Ok(_) => AllAllowed(c, p) && (exposed ==> c.fallbackPermitted && !drops)
    case Err(Unauthorized(ids)) => !AllAllowed(c, p) && forall id :: id in ids <==> Names(p, id) && id !in c.allowed
    case Err(FallbackExposed(ids)) =>
      AllAllowed(c, p) && exposed && !c.fallbackPermitted && forall id :: id in ids <==> ShowsFallback(p, id)
    case Err(StrictExposed(ids)) =>
      AllAllowed(c, p) && exposed && c.fallbackPermitted && drops && forall id :: id in ids <==> ShowsFallback(p, id)
  }

  lemma CheckMeaning(c: Contract, p: Payload, state: Option<PayloadState>)
    requires StateOf(p, state)
    ensures Verdict(c, p, CheckState(c, state))
  {
    hide NamedByRows, FallbackByRows, CoerceStrings, Strip;
    if state.Some? {
      hide Names, ShowsFallback;
      var s := state.value;
      var unauthorized := set id | id in s.sourceIds && id !in c.allowed;
      assert AllAllowed(c, p) <==> unauthorized == {} by {
        if id :| Names(p, id) && id !in c.allowed { assert id in unauthorized; }
        if id :| id in unauthorized { assert Names(p, id); }
      }
      assert s.fallbackIds != {} <==> exists id :: ShowsFallback(p, id) by {
        if id :| id in s.fallbackIds { assert ShowsFallback(p, id); }
        if id :| ShowsFallback(p, id) { assert id in s.fallbackIds; }
      }
    }
  }

  // ----- the contract theorem -----

  function PayloadRows(entries: seq<Entry>): (r: seq<PayloadRow>)
    ensures |r| == |entries|
    ensures forall i :: 0 <= i < |r| ==> r[i] == PayloadRow(Some(entries[i].sourceId), Some(TierName(entries[i].tier)))
  {
    seq(|entries|, i requires 0 <= i < |entries| =>
      PayloadRow(Some(entries[i].sourceId), Some(TierName(entries[i].tier))))
  }

  /** The payload built from some usages: their provenance entries and the source mix of those. */
  function BuiltPayload(
      registry: Registry, parse: AsOfParser, usages: seq<Usage>, flags: seq<string>, companyIsStrict: bool): Payload {
    var entries := ProvenanceEntries(registry, parse, usages);
    Payload(Some(PayloadRows(entries)), Some(BuildSourceMix(entries)), flags, companyIsStrict)
  }

  lemma TierNamesKeepFallback(t: Tier)
    ensures CoerceString(Some(TierName(t))) == Some(TierName(t))
    ensures TierName(t) in FALLBACK_TIER_NAMES <==> IsFallbackTier(t)
  {
    hide Strip;
    assert Trimmed(TierName(t)) && TierName(t) != "";
    StripTrims(TierName(t));
    assert |TierName(CommercialFallback)| == 19 && |TierName(ManualOverride)| == 15;
  }

  /** The row of an entry names exactly its source, and is fallback exactly when its tier is. */
  lemma RowMeaning(e: Entry, id: string)
    requires e.sourceId != "" && Trimmed(e.sourceId)
    ensures var row := PayloadRow(Some(e.sourceId), Some(TierName(e.tier)));
            (RowNames(row, id) <==> id == e.sourceId) && (RowIsFallback(row) <==> IsFallbackTier(e.tier))
  {
    hide Strip;
    StripTrims(e.sourceId);
    TierNamesKeepFallback(e.tier);
  }

  lemma MixMeaning(registry: Registry, entries: seq<Entry>, id: string)
    requires ValidRegistry(registry) && forall e :: e in entries ==> e.sourceId in registry
    ensures NamedByMix(Some(BuildSourceMix(entries)), id) <==> exists e :: e in entries && e.sourceId == id
    ensures id in CoerceStrings(BuildSourceMix(entries).fallbackIds) <==>
            exists e :: e in entries && e.sourceId == id && IsFallbackTier(e.tier)
  {
    hide IdsWhere, CoerceStrings;
    var mix := BuildSourceMix(entries);
    assert forall e :: e in entries ==> e.sourceId != "" && Trimmed(e.sourceId);
    CoercedIds(mix.sourceIds, id);
    CoercedIds(mix.primaryIds, id);
    CoercedIds(mix.fallbackIds, id);
  }

  lemma CoercedIds(ids: seq<string>, id: string)
    requires forall x :: x in ids ==> x != "" && Trimmed(x)
    ensures id in CoerceStrings(ids) <==> id in ids
  {
    hide Strip, CoerceStrings;
    forall x | x in ids ensures Strip(x) == x { StripTrims(x); }
  }

  lemma RowsMeaning(registry: Registry, entries: seq<Entry>, id: string)
    requires ValidRegistry(registry)
    requires forall e :: e in entries ==> e.sourceId in registry && e.tier == registry[e.sourceId].tier
    ensures NamedByRows(PayloadRows(entries), id) <==> exists e :: e in entries && e.sourceId == id
    ensures FallbackByRows(PayloadRows(entries), id) <==>
            exists e :: e in entries && e.sourceId == id && IsFallbackTier(e.tier)
  {
    hide RowNames, RowIsFallback, TierName;
    var rows := PayloadRows(entries);
    forall i | 0 <= i < |entries|
      ensures RowNames(rows[i], id) <==> id == entries[i].sourceId
      ensures RowIsFallback(rows[i]) <==> IsFallbackTier(entries[i].tier)
    {
      assert entries[i] in entries;
      RowMeaning(entries[i], id);
    }
    if e :| e in entries && e.sourceId == id {
      var i :| 0 <= i < |entries| && entries[i] == e;
      assert rows[i] in rows && RowNames(rows[i], id);
    }
    if e :| e in entries && e.sourceId == id && IsFallbackTier(e.tier) {
      var i :| 0 <= i < |entries| && entries[i] == e;
      assert rows[i] in rows && RowNames(rows[i], id) && RowIsFallback(rows[i]);
    }
  }

  /** The payload check re-derives exactly the known sources used, and those of them with a fallback tier. */
  lemma StateOfBuiltPayload(registry: Registry, parse: AsOfParser, usages: seq<Usage>, flags: seq<string>,
      companyIsStrict: bool, state: Option<PayloadState>)
    requires ValidRegistry(registry)
    requires StateOf(BuiltPayload(registry, parse, usages, flags, companyIsStrict), state)
    ensures state.Some?
    ensures forall id :: id in state.value.sourceIds <==> Used(registry, usages, id)
    ensures forall id :: id in state.value.fallbackIds <==>
            Used(registry, usages, id) && IsFallbackTier(registry[id].tier)
  {
    var entries := ProvenanceEntries(registry, parse, usages);
    EntriesMeaning(registry, parse, usages);
    hide ProvenanceEntries, PayloadRows, BuildSourceMix, NamedByRows, FallbackByRows, NamedByMix, CoerceStrings,
      IsStrict;
    assert forall e :: e in entries ==> Summarises(registry, usages, e);
    forall id
      ensures (exists e :: e in entries && e.sourceId == id) <==> Used(registry, usages, id)
      ensures id in state.value.sourceIds <==> Used(registry, usages, id)
      ensures id in state.value.fallbackIds <==> Used(registry, usages, id) && IsFallbackTier(registry[id].tier)
    {
      MixMeaning(registry, entries, id);
      RowsMeaning(registry, entries, id);
    }
  }

  /**
   The contract theorem: for a contract its validator accepts and usages whose known sources are allowed, the built
   payload passes the check if and only if it is not the case that the payload is in strict official mode, the
   contract drops commercial fallbacks there, and some used source has a fallback tier.
   */
  lemma BuiltPayloadPassesExactlyWhen(registry: Registry, parse: AsOfParser, c: Contract, usages: seq<Usage>,
                                      flags: seq<string>, companyIsStrict: bool, state: Option<PayloadState>)
    requires ValidRegistry(registry) && ValidContract(registry, c)
    requires forall u :: u in usages && u.sourceId in registry ==> u.sourceId in c.allowed
    requires StateOf(BuiltPayload(registry, parse, usages, flags, companyIsStrict), state)
    ensures CheckState(c, state).Ok? <==>
            !(IsStrict(BuiltPayload(registry, parse, usages, flags, companyIsStrict)) &&
              c.strictBehavior == DropCommercialFallbackInputs &&
              exists id :: Used(registry, usages, id) && IsFallbackTier(registry[id].tier))
  {
    hide IsStrict, BuiltPayload;
    StateOfBuiltPayload(registry, parse, usages, flags, companyIsStrict, state);
    StrictOfState(BuiltPayload(registry, parse, usages, flags, companyIsStrict), state);
    hide StateOf;
    var s := state.value;
    assert (exists id :: Used(registry, usages, id) && IsFallbackTier(registry[id].tier)) <==> s.fallbackIds != {} by {
      assert s.fallbackIds != {} <==> exists id :: id in s.fallbackIds;
    }
    assert forall id :: id in s.sourceIds ==> id in c.allowed;
    var unauthorized := set id | id in s.sourceIds && id !in c.allowed;
    assert unauthorized == {};
  }

  lemma StrictOfState(p: Payload, state: Option<PayloadState>)
    requires StateOf(p, state) && state.Some?
    ensures state.value.strict == IsStrict(p)
  {
  }

  /** A payload whose mix says official only passes every valid contract that allows its sources. */
  lemma OfficialOnlyAlwaysPasses(registry: Registry, parse: AsOfParser, c: Contract, usages: seq<Usage>,
                                 flags: seq<string>, companyIsStrict: bool, state: Option<PayloadState>)
    requires ValidRegistry(registry) && ValidContract(registry, c)
    requires forall u :: u in usages && u.sourceId in registry ==> u.sourceId in c.allowed
    requires StateOf(BuiltPayload(registry, parse, usages, flags, companyIsStrict), state)
    requires BuildSourceMix(ProvenanceEntries(registry, parse, usages)).officialOnly
    ensures CheckState(c, state).Ok?
  {
    hide ProvenanceEntries, StateOf, IsStrict, BuiltPayload;
    BuiltPayloadPassesExactlyWhen(registry, parse, c, usages, flags, companyIsStrict, state);
    EntriesMeaning(registry, parse, usages);
    var entries := ProvenanceEntries(registry, parse, usages);
    forall id | Used(registry, usages, id) ensures !IsFallbackTier(registry[id].tier) {
      var e :| e in entries && e.sourceId == id;
      assert Summarises(registry, usages, e);
      assert e.tier in BuildSourceMix(entries).tiers;
    }
  }

  /**
   What the mix of a payload says about its usages: the sources used, those used as primary at least once, those with a
   fallback tier, and official only exactly when something known was used and none of it is fallback.
   */
  lemma MixOfUsages(registry: Registry, parse: AsOfParser, usages: seq<Usage>, id: string)
    requires ValidRegistry(registry)
    ensures var mix := BuildSourceMix(ProvenanceEntries(registry, parse, usages));
      && (id in mix.sourceIds <==> Used(registry, usages, id))
      && (id in mix.primaryIds <==> id in registry && exists u :: u in usages && UsageOf(u, id) && u.role == Primary)
      && (id in mix.fallbackIds <==> Used(registry, usages, id) && IsFallbackTier(registry[id].tier))
      && (mix.officialOnly <==>
          (exists x :: Used(registry, usages, x)) &&
            forall x :: Used(registry, usages, x) ==> !IsFallbackTier(registry[x].tier))
  {
    var entries := ProvenanceEntries(registry, parse, usages);
    EntriesMeaning(registry, parse, usages);
    hide ProvenanceEntries, BuildSourceMix, StrongestRole, LatestRefresh;
    MixOfEntries(entries, id);
    OfficialOnlyOfEntries(registry, entries);
    forall x ensures Used(registry, usages, x) <==> exists e :: e in entries && e.sourceId == x {
      if e :| e in entries && e.sourceId == x { assert Summarises(registry, usages, e); }
    }
    hide Used;
    assert forall e :: e in entries ==> Summarises(registry, usages, e);
    PrimaryOfEntries(registry, usages, entries, id);
    OfficialOfUses(registry, usages, entries);
  }

  lemma OfficialOfUses(registry: Registry, usages: seq<Usage>, entries: seq<Entry>)
    requires forall e :: e in entries ==> Summarises(registry, usages, e)
    requires forall x :: Used(registry, usages, x) <==> exists e :: e in entries && e.sourceId == x
    ensures entries != [] && (forall e :: e in entries ==> !IsFallbackTier(e.tier)) <==>
            (exists x :: Used(registry, usages, x)) &&
              forall x :: Used(registry, usages, x) ==> !IsFallbackTier(registry[x].tier)
  {
    hide StrongestRole, LatestRefresh;
    if entries != [] { assert entries[0] in entries; }
  }

  lemma MixOfEntries(entries: seq<Entry>, id: string)
    requires forall e :: e in entries ==> e.sourceId != ""
    ensures id in BuildSourceMix(entries).sourceIds <==> exists e :: e in entries && e.sourceId == id
    ensures id in BuildSourceMix(entries).primaryIds <==>
            exists e :: e in entries && e.sourceId == id && e.role == Primary
    ensures id in BuildSourceMix(entries).fallbackIds <==>
            exists e :: e in entries && e.sourceId == id && IsFallbackTier(e.tier)
  {
    hide IdsWhere;
  }

  lemma OfficialOnlyOfEntries(registry: Registry, entries: seq<Entry>)
    requires forall e :: e in entries ==> e.sourceId != ""
    ensures BuildSourceMix(entries).officialOnly <==>
            entries != [] && forall e :: e in entries ==> !IsFallbackTier(e.tier)
  {
    hide IdsWhere;
    var mix := BuildSourceMix(entries);
    assert forall e :: e in entries ==> e.tier in mix.tiers;
    if forall e :: e in entries ==> !IsFallbackTier(e.tier) {
      assert forall x :: x !in mix.fallbackIds;
      NoMembers(mix.fallbackIds);
    }
  }

  /** An entry is primary exactly when its source was used as primary at least once. */
  lemma PrimaryOfEntries(registry: Registry, usages: seq<Usage>, entries: seq<Entry>, id: string)
    requires forall e :: e in entries ==> Summarises(registry, usages, e)
    requires Used(registry, usages, id) ==> exists e :: e in entries && e.sourceId == id
    ensures (exists e :: e in entries && e.sourceId == id && e.role == Primary) <==>
            id in registry && exists u :: u in usages && UsageOf(u, id) && u.role == Primary
  {
    if u :| u in usages && UsageOf(u, id) && u.role == Primary && id in registry {
      assert Used(registry, usages, id);
      var e :| e in entries && e.sourceId == id;
      assert StrongestRole(e.role, usages, id);
      assert RoleOrder(e.role) <= RoleOrder(u.role);
    }
  }
}
