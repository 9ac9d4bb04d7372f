/**
 `ModelEngine.compute_models` over a session, its specification as a function on the run table, and the theorems about
 whole histories of calls.
 */
module ModelEngine {
  import opened Financials
  import opened ModelCache
  import opened Ordering
  import opened Text
  import opened Wrappers

  /** One call and everything it reads: the tables, the settings and the server clock at that moment. */
  datatype Call = Call(
    tables: Tables, settings: Settings, companyId: int, names: Option<seq<string>>, force: bool, now: int)

  datatype Store = Store(runs: seq<ModelRun>, nextId: int)

  type Reply = Result<seq<JobResult>, ComputeError>

  function FindFrom(name: string, i: nat): (r: Option<Definition>)
    ensures r.Some? ==> r.value in REGISTRY && r.value.name == name
    decreases |REGISTRY| - i
  {
    if i >= |REGISTRY| then None
    else if REGISTRY[i].name == name then Some(REGISTRY[i])
    else FindFrom(name, i + 1)
  }

  function SelectNamed(names: seq<string>): (r: Result<seq<Definition>, ComputeError>)
    ensures r.Ok? ==> |r.value| == |names| && forall i :: 0 <= i < |names| ==>
            r.value[i] in REGISTRY && r.value[i].name == Lower(names[i])
  {
    if names == [] then Ok([]) else
      var first := FindFrom(Lower(names[0]), 0);
      if first == None then Err(UnsupportedModel(names[0])) else
        var rest := SelectNamed(names[1..]);
        if rest.Err? then rest else Ok([first.value] + rest.value)
  }

  function SelectDefinitions(names: Option<seq<string>>): (r: Result<seq<Definition>, ComputeError>)
    ensures r.Ok? ==> forall d :: d in r.value ==> d in REGISTRY
  {
    if names == None then Ok(REGISTRY) else SelectNamed(names.value)
  }

  predicate Registered(name: string) {
    exists d :: d in REGISTRY && d.name == Lower(name)
  }

  lemma {:induction false} FindFromFinds(name: string, i: nat)
    ensures FindFrom(name, i).None? ==> forall j :: i <= j < |REGISTRY| ==> REGISTRY[j].name != name
    decreases |REGISTRY| - i
  {
    if i < |REGISTRY| { FindFromFinds(name, i + 1); }
  }

  lemma FindsExactlyTheRegistered(name: string)
    ensures FindFrom(Lower(name), 0).Some? <==> Registered(name)
  {
    hide FindFrom, Lower;
    FindFromFinds(Lower(name), 0);
    if d :| d in REGISTRY && d.name == Lower(name) {
      var j :| 0 <= j < |REGISTRY| && REGISTRY[j] == d;
    }
  }

  /** Selection succeeds exactly when every name, in any case, is registered, and otherwise reports the first that is
      not. */
  lemma {:induction false} SelectionMeaning(names: seq<string>)
    ensures SelectNamed(names).Ok? <==> forall i :: 0 <= i < |names| ==> Registered(names[i])
    ensures SelectNamed(names).Err? ==>
              exists i :: 0 <= i < |names| && SelectNamed(names) == Err(UnsupportedModel(names[i])) &&
                !Registered(names[i]) && forall j :: 0 <= j < i ==> Registered(names[j])
  {
    hide FindFrom, Registered;
    if names != [] {
      FindsExactlyTheRegistered(names[0]);
      SelectionMeaning(names[1..]);
      if Registered(names[0]) && SelectNamed(names).Err? {
        var i :| 0 <= i < |names[1..]| && SelectNamed(names[1..]) == Err(UnsupportedModel(names[1..][i])) &&
          !Registered(names[1..][i]) && forall j :: 0 <= j < i ==> Registered(names[1..][j]);
        assert names[i + 1] == names[1..][i];
        forall j | 0 <= j < i + 1 ensures Registered(names[j]) { assert j > 0 ==> names[j] == names[1..][j - 1]; }
      }
    }
  }

  lemma RegistryNamesAreUnique(d: Definition, e: Definition)
    requires d in REGISTRY && e in REGISTRY && d.name == e.name
    ensures d == e
  {
    var i :| 0 <= i < |REGISTRY| && REGISTRY[i] == d;
    var j :| 0 <= j < |REGISTRY| && REGISTRY[j] == e;
    assert i == j;
  }

  lemma SelectedAreKeyed(defs: seq<Definition>)
    requires forall d :: d in defs ==> d in REGISTRY
    ensures KeyedByNameAndVersion(defs)
  {
    forall d, e | d in defs && e in defs && d.name == e.name ensures d == e { RegistryNamesAreUnique(d, e); }
  }

  // ----- the specification -----

  predicate Hit(runs: seq<ModelRun>, c: Call, data: Dataset, d: Definition) {
    var latest := Latest(runs, c.companyId, d);
    !c.force && latest.Some? && latest.value.signature == Some(Sha256(SignedInput(data, c.settings, d)))
  }

  function FreshRun(f: Formula, c: Call, data: Dataset, d: Definition, id: int): ModelRun {
    ModelRun(id, c.companyId, d.name, d.version, d.calculationVersion, Some(Sha256(SignedInput(data, c.settings, d))),
             Recomputed(f, data, c.settings, d), c.now)
  }

  datatype Filled = Filled(appended: seq<ModelRun>, results: seq<JobResult>)

  /** Definition by definition: a hit reports the stored run, a miss appends. Lookups see the table before the call. */
  function Fill(f: Formula, s: Store, c: Call, data: Dataset, defs: seq<Definition>): (r: Filled)
    ensures |r.results| == |defs|
  {
    if defs == [] then Filled([], []) else
      var before := Fill(f, s, c, data, defs[..|defs| - 1]);
      var d := defs[|defs| - 1];
      if Hit(s.runs, c, data, d) then
        var hit := Latest(s.runs, c.companyId, d).value;
        Filled(before.appended, before.results + [JobResult(c.companyId, d.name, d.version, true, hit.id)])
      else
        var id := s.nextId + |before.appended|;
        Filled(before.appended + [FreshRun(f, c, data, d, id)],
               before.results + [JobResult(c.companyId, d.name, d.version, false, id)])
  }

  function Compute(f: Formula, s: Store, c: Call): (Store, Reply) {
    if c.companyId !in c.tables.companies then (s, Err(NoSuchCompany(c.companyId)))
    else
      var data := DatasetOf(c.tables, c.settings, c.companyId);
      if data.financials == [] then (s, Ok([]))
      else
        var defs := SelectDefinitions(c.names);
        if defs.Err? then (s, Err(defs.error))
        else
          var filled := Fill(f, s, c, data, defs.value);
          (Store(s.runs + filled.appended, s.nextId + |filled.appended|), Ok(filled.results))
  }

  lemma FillNothing(f: Formula, s: Store, c: Call, data: Dataset)
    ensures Fill(f, s, c, data, []) == Filled([], [])
  {
  }

  lemma FillStep(f: Formula, s: Store, c: Call, data: Dataset, defs: seq<Definition>, i: nat)
    requires i < |defs|
    ensures var before := Fill(f, s, c, data, defs[..i]);
            var after := Fill(f, s, c, data, defs[..i + 1]);
            var id := s.nextId + |before.appended|;
            if Hit(s.runs, c, data, defs[i]) then
              after.appended == before.appended &&
              var hit := Latest(s.runs, c.companyId, defs[i]).value;
              after.results == before.results + [JobResult(c.companyId, defs[i].name, defs[i].version, true, hit.id)]
            else
              after.appended == before.appended + [FreshRun(f, c, data, defs[i], id)] &&
              after.results == before.results + [JobResult(c.companyId, defs[i].name, defs[i].version, false, id)]
  {
    hide Hit, Latest, FreshRun;
    assert defs[..i + 1][..i] == defs[..i];
  }

  // ----- the engine -----

  ghost predicate ValidStore(s: Store) {
    UniqueIds(s.runs) && forall r :: r in s.runs ==> r.id < s.nextId
  }

  class Session {
    var tables: Tables
    var runs: seq<ModelRun>
    var nextId: int

    function Contents(): Store
      reads this
    {
      Store(runs, nextId)
    }

    /** Add and flush: the database assigns the next id. */
    method Append(run: ModelRun) returns (id: int)
      modifies this`runs, this`nextId
      ensures id == old(nextId) && runs == old(runs) + [run.(id := id)] && nextId == old(nextId) + 1
    {
      id := nextId;
      runs := runs + [run.(id := id)];
      nextId := nextId + 1;
    }
  }

  class Engine {
    const session: Session
    const formula: Formula

    constructor (session: Session, formula: Formula)
      ensures this.session == session && this.formula == formula
    {
      this.session := session;
      this.formula := formula;
    }

    /** The loop over the definitions, against the runs found before it. */
    method ComputeDefinitions(c: Call, data: Dataset, defs: seq<Definition>, cached: map<(string, string), ModelRun>)
      returns (results: seq<JobResult>)
      requires forall d :: d in defs ==> Lookup(cached, (d.name, d.version)) == Latest(session.runs, c.companyId, d)
      modifies session`runs, session`nextId
      ensures var filled := Fill(formula, old(session.Contents()), c, data, defs);
              && results == filled.results
              && session.runs == old(session.runs) + filled.appended
              && session.nextId == old(session.nextId) + |filled.appended|
    {
      hide Latest, Fill, DatasetOf;
      ghost var start := session.Contents();
      assert defs[..0] == [];
      FillNothing(formula, start, c, data);
      results := [];
      for i := 0 to |defs|
        invariant session.runs == start.runs + Fill(formula, start, c, data, defs[..i]).appended
        invariant session.nextId == start.nextId + |Fill(formula, start, c, data, defs[..i]).appended|
        invariant results == Fill(formula, start, c, data, defs[..i]).results
      {
        var d := defs[i];
        FillStep(formula, start, c, data, defs, i);
        var input := SignedInput(data, c.settings, d);
        var found := Lookup(cached, (d.name, d.version));
        if !c.force && found.Some? && found.value.signature == Some(Sha256(input)) {
          results := results + [JobResult(c.companyId, d.name, d.version, true, found.value.id)];
        } else {
          var result := formula(d, input, HiddenInput(data, c.settings, d));
          var id := session.Append(ModelRun(0, c.companyId, d.name, d.version, d.calculationVersion,
            Some(Sha256(input)), result, c.now));
          results := results + [JobResult(c.companyId, d.name, d.version, false, id)];
        }
      }
      assert defs[..|defs|] == defs;
    }

    method LoadDataset(tables: Tables, settings: Settings, companyId: int) returns (data: Dataset)
      requires companyId in tables.companies
      ensures data == DatasetOf(tables, settings, companyId)
    {
      var financials := BuildFinancials(LoadCanonical(tables.statements, companyId, settings.maxPeriods));
      return Dataset(tables.companies[companyId], financials,
                     LatestSnapshot(tables.prices, companyId, settings.strictOfficial));
    }

    method ComputeModels(companyId: int, names: Option<seq<string>>, force: bool, settings: Settings, now: int)
      returns (reply: Reply)
      requires ValidStore(session.Contents())
      modifies session`runs, session`nextId
      ensures var computed :=
              Compute(formula, old(session.Contents()), Call(session.tables, settings, companyId, names, force, now));
              session.Contents() == computed.0 && reply == computed.1
    {
      hide DatasetOf, SelectDefinitions, Latest, Fill, Lookup, KeyedByNameAndVersion;
      if companyId !in session.tables.companies {
        return Err(NoSuchCompany(companyId));
      }
      var data := LoadDataset(session.tables, settings, companyId);
      if |data.financials| == 0 {
        return Ok([]);
      }
      var selected := SelectDefinitions(names);
      if selected.Err? {
        return Err(selected.error);
      }
      SelectedAreKeyed(selected.value);
      var cached := LatestModelRuns(session.runs, companyId, selected.value);
      var results :=
        ComputeDefinitions(Call(session.tables, settings, companyId, names, force, now), data, selected.value, cached);
      return Ok(results);
    }
  }
}
