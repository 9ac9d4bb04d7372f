/**
 The cache backfill script: it decides over the same run table which model rows are out of date, and recomputes those
 through the engine. The theorems compare its decisions with the engine's.
 */
module Backfill {
  import opened ModelCache
  import opened ModelEngine
  import CacheTheorems
  import opened Ordering
  import opened Text
  import opened Wrappers

  /** A ticker/model work item. */
  datatype Item = Item(companyId: int, model: string)

  datatype Reason = MissingModelRow | MissingCalculationVersion | UnversionedModel | Outdated(version: string) |
    UpToDate

  datatype Status =
    | AlreadyCurrent
    | NewerVersion(version: Option<string>)
    | WouldRecompute(reason: Reason)
    | Failed
    | NoResult
    | Recomputed(reason: Reason)
    | CurrentAfterRecheck

  // ----- version comparison -----

  /** Position of the last "_v", or -1. */
  function LastSeparator(s: string): (r: int)
    ensures -1 <= r && (r >= 0 ==> r + 2 <= |s| && s[r] == '_' && s[r + 1] == 'v')
  {
    if |s| < 2 then -1
    else if s[|s| - 2] == '_' && s[|s| - 1] == 'v' then |s| - 2
    else LastSeparator(s[..|s| - 1])
  }

  predicate IsDigits(s: string) {
    s != [] && forall i :: 0 <= i < |s| ==> '0' <= s[i] <= '9'
  }

  function NumberOf(s: string): nat
    requires s == [] || IsDigits(s)
  {
    if s == [] then 0 else 10 * NumberOf(s[..|s| - 1]) + (s[|s| - 1] as int - '0' as int)
  }

  function VersionSortKey(value: string): Option<(string, nat)> {
    var at := LastSeparator(value);
    if at < 0 || !IsDigits(value[at + 2..]) then None else Some((value[..at], NumberOf(value[at + 2..])))
  }

  function CompareCalculationVersion(actual: string, expected: string): int {
    var a, e := VersionSortKey(actual), VersionSortKey(expected);
    if a == None || e == None || a.value.0 != e.value.0 then 0
    else if a.value.1 > e.value.1 then 1
    else if a.value.1 < e.value.1 then -1
    else 0
  }

  /** `s` is `base` with the number `digits`. */
  predicate Numbered(s: string, base: string, digits: string) {
    s == base + "_v" + digits && digits != "" && forall c :: c in digits ==> c in "0123456789"
  }

  lemma DigitsAreDecimal(s: string)
    ensures IsDigits(s) <==> s != "" && forall c :: c in s ==> c in "0123456789"
  {
    forall i | 0 <= i < |s| ensures '0' <= s[i] <= '9' <==> s[i] in "0123456789" { DigitIsDecimal(s[i]); }
    if forall c :: c in s ==> c in "0123456789" {
      forall i | 0 <= i < |s| ensures s[i] in "0123456789" { assert s[i] in s; }
    }
  }

  lemma DigitIsDecimal(c: char)
    ensures '0' <= c <= '9' <==> c in "0123456789"
  {
    assert "0123456789"[0] == '0' && "0123456789"[1] == '1' && "0123456789"[2] == '2' && "0123456789"[3] == '3';
    assert "0123456789"[4] == '4' && "0123456789"[5] == '5' && "0123456789"[6] == '6' && "0123456789"[7] == '7';
    assert "0123456789"[8] == '8' && "0123456789"[9] == '9';
    if '0' <= c <= '9' { assert "0123456789"[c as int - '0' as int] == c; }
  }

  function Padded(digits: string, length: nat): string {
    if |digits| < length then seq(length - |digits|, _ => '0') + digits else digits
  }

  /** Digit by digit, after filling up with zeros. */
  predicate GreaterNumber(x: string, y: string) {
    !LexLe(Padded(x, |y|), Padded(y, |x|))
  }

  /** A later revision of the same calculation: the same base, and a greater number. */
  ghost predicate Supersedes(actual: string, expected: string) {
    exists base, x, y :: Numbered(actual, base, x) && Numbered(expected, base, y) && GreaterNumber(x, y)
  }

  lemma {:induction false} SeparatorOf(base: string, digits: string)
    requires digits == "" || IsDigits(digits)
    ensures LastSeparator(base + "_v" + digits) == |base|
  {
    var s := base + "_v" + digits;
    if digits == "" {
      assert s[|s| - 2] == '_' && s[|s| - 1] == 'v';
    } else {
      SeparatorOf(base, digits[..|digits| - 1]);
      assert s[..|s| - 1] == base + "_v" + digits[..|digits| - 1];
      assert s[|s| - 1] == digits[|digits| - 1];
    }
  }

  lemma KeyOfNumbered(s: string, base: string, digits: string)
    ensures Numbered(s, base, digits) <==>
            VersionSortKey(s).Some? && IsDigits(digits) &&
            s[..LastSeparator(s)] == base && s[LastSeparator(s) + 2..] == digits
    ensures Numbered(s, base, digits) ==> VersionSortKey(s) == Some((base, NumberOf(digits)))
  {
    hide LastSeparator, NumberOf;
    DigitsAreDecimal(digits);
    if Numbered(s, base, digits) { SeparatorOf(base, digits); }
    var at := LastSeparator(s);
    if VersionSortKey(s).Some? { assert s == s[..at] + "_v" + s[at + 2..]; }
  }

  lemma {:induction false} ZerosCountForNothing(n: nat, digits: string)
    requires digits == "" || IsDigits(digits)
    ensures IsDigits(seq(n, _ => '0') + digits) || n == |digits| == 0
    ensures NumberOf(seq(n, _ => '0') + digits) == NumberOf(digits)
    decreases |digits|, n
  {
    var s := seq(n, _ => '0') + digits;
    if digits != "" {
      assert s[..|s| - 1] == seq(n, _ => '0') + digits[..|digits| - 1];
      ZerosCountForNothing(n, digits[..|digits| - 1]);
    } else if n > 0 {
      assert s[..|s| - 1] == seq(n - 1, _ => '0') + digits;
      ZerosCountForNothing(n - 1, digits);
    }
  }

  /** The last characters decide between strings of one length that agree before them. */
  lemma {:induction false} LexSnoc(a: string, c: char, b: string, d: char)
    requires |a| == |b|
    ensures LexLe(a + [c], b + [d]) <==> (a != b && LexLe(a, b)) || (a == b && c <= d)
  {
    if a != [] {
      LexSnoc(a[1..], c, b[1..], d);
      assert (a + [c])[1..] == a[1..] + [c] && (b + [d])[1..] == b[1..] + [d];
      assert a == [a[0]] + a[1..] && b == [b[0]] + b[1..];
    }
  }

  lemma {:induction false} NumbersCompareAsTexts(x: string, y: string)
    requires |x| == |y| && (x == "" || IsDigits(x)) && (y == "" || IsDigits(y))
    ensures NumberOf(x) <= NumberOf(y) <==> LexLe(x, y)
    decreases |x|
  {
    if x != "" {
      var a, b := x[..|x| - 1], y[..|y| - 1];
      hide LexLe;
      NumbersCompareAsTexts(a, b);
      NumbersCompareAsTexts(b, a);
      LexSnoc(a, x[|x| - 1], b, y[|y| - 1]);
      assert x == a + [x[|x| - 1]] && y == b + [y[|y| - 1]];
      if LexLe(a, b) && LexLe(b, a) { LexAntisymmetric(a, b); }
    }
  }

  lemma GreaterNumberIsGreater(x: string, y: string)
    requires IsDigits(x) && IsDigits(y)
    ensures GreaterNumber(x, y) <==> NumberOf(x) > NumberOf(y)
  {
    hide NumberOf, LexLe;
    if |x| < |y| { ZerosCountForNothing(|y| - |x|, x); }
    if |y| < |x| { ZerosCountForNothing(|x| - |y|, y); }
    NumbersCompareAsTexts(Padded(x, |y|), Padded(y, |x|));
  }

  /** One version is ahead of another exactly when it supersedes it; unlike bases and unnumbered texts never are. */
  lemma AheadExactlyWhenSuperseding(actual: string, expected: string)
    ensures CompareCalculationVersion(actual, expected) > 0 <==> Supersedes(actual, expected)
    ensures CompareCalculationVersion(actual, expected) < 0 <==> Supersedes(expected, actual)
  {
    AheadMeansSuperseding(actual, expected);
    AheadMeansSuperseding(expected, actual);
    CompareIsAntisymmetric(actual, expected);
  }

  lemma AheadMeansSuperseding(actual: string, expected: string)
    ensures CompareCalculationVersion(actual, expected) > 0 <==> Supersedes(actual, expected)
  {
    hide GreaterNumber, NumberOf, Numbered;
    if base, x, y :| Numbered(actual, base, x) && Numbered(expected, base, y) && GreaterNumber(x, y) {
      KeyOfNumbered(actual, base, x);
      KeyOfNumbered(expected, base, y);
      GreaterNumberIsGreater(x, y);
    }
    if CompareCalculationVersion(actual, expected) > 0 {
      var i, j := LastSeparator(actual), LastSeparator(expected);
      var x, y := actual[i + 2..], expected[j + 2..];
      KeyOfNumbered(actual, actual[..i], x);
      KeyOfNumbered(expected, expected[..j], y);
      GreaterNumberIsGreater(x, y);
      assert Supersedes(actual, expected);
    }
  }

  // ----- decisions -----

  /** The item's rows, newest first. */
  function RunsOf(runs: seq<ModelRun>, it: Item): seq<ModelRun> {
    SortBy(Newer, Filter((r: ModelRun) => r.companyId == it.companyId && r.modelName == it.model, runs))
  }

  function CurrentRun(runs: seq<ModelRun>, expected: Option<string>): Option<ModelRun> {
    if expected == None || runs == [] then None
    else if RunCalculationVersion(runs[0]) == expected then Some(runs[0])
    else CurrentRun(runs[1..], expected)
  }

  function NewerRun(runs: seq<ModelRun>, expected: Option<string>): Option<ModelRun> {
    if expected == None || runs == [] then None
    else
      var actual := RunCalculationVersion(runs[0]);
      if actual.Some? && CompareCalculationVersion(actual.value, expected.value) > 0 then Some(runs[0])
      else NewerRun(runs[1..], expected)
  }

  function RefreshReason(run: Option<ModelRun>, expected: Option<string>): Reason {
    if run == None then MissingModelRow
    else
      var actual := RunCalculationVersion(run.value);
      if actual == None then MissingCalculationVersion
      else if expected == None then UnversionedModel
      else if actual != expected then Outdated(actual.value)
      else UpToDate
  }

  /** What the loaded rows decide for an item, before anything is computed: a final status, or a reason to recompute. */
  datatype Decision = Skip(status: Status) | Refresh(reason: Reason)

  function Decide(snapshot: seq<ModelRun>, it: Item): Decision {
    var runs := RunsOf(snapshot, it);
    var expected := CalculationVersionOf(it.model);
    var newer := NewerRun(runs, expected);
    if CurrentRun(runs, expected).Some? then Skip(AlreadyCurrent)
    else if newer.Some? then Skip(NewerVersion(RunCalculationVersion(newer.value)))
    else Refresh(RefreshReason(if runs == [] then None else Some(runs[0]), expected))
  }

  /** What one pass reads besides the run table; `raises` says which attempts raise and are rolled back. */
  datatype Pass = Pass(tables: Tables, settings: Settings, clock: int -> int, dryRun: bool, raises: set<Item>)

  function CallFor(p: Pass, it: Item, i: int): Call {
    Call(p.tables, p.settings, it.companyId, Some([it.model]), false, p.clock(i))
  }

  /** One item of the work loop. */
  function Process(f: Formula, p: Pass, snapshot: seq<ModelRun>, s: Store, it: Item, i: int): (Store, Status) {
    match Decide(snapshot, it)
    case Skip(status) => (s, status)
    case Refresh(reason) =>
      if p.dryRun then (s, WouldRecompute(reason))
      else if it in p.raises then (s, Failed)
      else
        var (next, reply) := Compute(f, s, CallFor(p, it, i));
        if reply.Err? then (s, Failed)
        else if reply.value == [] then (next, NoResult)
        else if reply.value[0].cached then (next, CurrentAfterRecheck)
        else (next, Recomputed(reason))
  }

  /** The store after the first `n` items; every decision reads the rows loaded before the loop. */
  function StoreAfter(f: Formula, p: Pass, s: Store, items: seq<Item>, n: nat): Store
    requires n <= |items|
  {
    if n == 0 then s else Process(f, p, s.runs, StoreAfter(f, p, s, items, n - 1), items[n - 1], n - 1).0
  }

  function StatusOf(f: Formula, p: Pass, s: Store, items: seq<Item>, i: nat): Status
    requires i < |items|
  {
    Process(f, p, s.runs, StoreAfter(f, p, s, items, i), items[i], i).1
  }

  method RunPass(
      engine: Engine, items: seq<Item>, settings: Settings, clock: int -> int, dryRun: bool, raises: set<Item>)
    returns (statuses: seq<Status>, exitCode: int)
    requires ValidStore(engine.session.Contents())
    modifies engine.session`runs, engine.session`nextId
    ensures |statuses| == |items|
    ensures var p := Pass(engine.session.tables, settings, clock, dryRun, raises);
            && engine.session.Contents() ==
              StoreAfter(engine.formula, p, old(engine.session.Contents()), items, |items|)
            && forall i :: 0 <= i < |items| ==>
              statuses[i] == StatusOf(engine.formula, p, old(engine.session.Contents()), items, i)
    ensures exitCode == if Failed in statuses then 1 else 0
  {
    hide Compute, Decide;
    var session := engine.session;
    var snapshot := session.runs;
    ghost var start := session.Contents();
    ghost var p := Pass(session.tables, settings, clock, dryRun, raises);
    statuses, exitCode := [], 0;
    for i := 0 to |items|
      invariant session.tables == p.tables && ValidStore(session.Contents())
      invariant session.Contents() == StoreAfter(engine.formula, p, start, items, i)
      invariant |statuses| == i &&
                forall j :: 0 <= j < i ==> statuses[j] == StatusOf(engine.formula, p, start, items, j)
      invariant exitCode == if Failed in statuses then 1 else 0
    {
      var it := items[i];
      var status: Status;
      ghost var before := session.Contents();
      match Decide(snapshot, it) {
        case Skip(decided) => status := decided; SkipIsNotFailed(snapshot, it);
        case Refresh(reason) =>
          if dryRun {
            status := WouldRecompute(reason);
          } else if it in raises {
            status, exitCode := Failed, 1;
          } else {
            CacheTheorems.ComputeKeepsStore(engine.formula, before, CallFor(p, it, i));
            ErrorsChangeNothing(engine.formula, before, CallFor(p, it, i));
            var reply := engine.ComputeModels(it.companyId, Some([it.model]), false, settings, clock(i));
            if reply.Err? {
              status, exitCode := Failed, 1;
            } else if |reply.value| == 0 {
              status := NoResult;
            } else {
              status := if reply.value[0].cached then CurrentAfterRecheck else Recomputed(reason);
            }
          }
      }
      assert (session.Contents(), status) == Process(engine.formula, p, snapshot, before, it, i);
      statuses := statuses + [status];
    }
  }

  lemma SkipIsNotFailed(snapshot: seq<ModelRun>, it: Item)
    requires Decide(snapshot, it).Skip?
    ensures Decide(snapshot, it).status.AlreadyCurrent? || Decide(snapshot, it).status.NewerVersion?
  {
  }

  lemma ErrorsChangeNothing(f: Formula, s: Store, c: Call)
    ensures Compute(f, s, c).1.Err? ==> Compute(f, s, c).0 == s
  {
  }

  // ----- what the decisions mean -----

  predicate OfItem(r: ModelRun, it: Item) {
    r.companyId == it.companyId && r.modelName == it.model
  }

  predicate IsCurrent(r: ModelRun, it: Item) {
    OfItem(r, it) && CalculationVersionOf(it.model).Some? && RunCalculationVersion(r) == CalculationVersionOf(it.model)
  }

  /** The row carries a later revision of the same calculation. */
  ghost predicate IsAhead(r: ModelRun, it: Item) {
    OfItem(r, it) && CalculationVersionOf(it.model).Some? && RunCalculationVersion(r).Some? &&
    Supersedes(RunCalculationVersion(r).value, CalculationVersionOf(it.model).value)
  }

  lemma {:induction false} CurrentRunFinds(runs: seq<ModelRun>, expected: Option<string>)
    requires expected.Some?
    ensures CurrentRun(runs, expected).Some? <==> exists r :: r in runs && RunCalculationVersion(r) == expected
  {
    hide RunCalculationVersion;
    if runs != [] { CurrentRunFinds(runs[1..], expected); }
  }

  lemma {:induction false} NewerRunFinds(runs: seq<ModelRun>, expected: Option<string>)
    requires expected.Some?
    ensures NewerRun(runs, expected).Some? <==>
            exists r :: r in runs && RunCalculationVersion(r).Some? &&
              Supersedes(RunCalculationVersion(r).value, expected.value)
    ensures NewerRun(runs, expected).Some? ==>
              NewerRun(runs, expected).value in runs &&
              RunCalculationVersion(NewerRun(runs, expected).value).Some? &&
              Supersedes(RunCalculationVersion(NewerRun(runs, expected).value).value, expected.value)
  {
    hide RunCalculationVersion, CompareCalculationVersion, Supersedes;
    if runs != [] {
      NewerRunFinds(runs[1..], expected);
      var actual := RunCalculationVersion(runs[0]);
      if actual.Some? { AheadExactlyWhenSuperseding(actual.value, expected.value); }
    }
  }

  /** The script skips an item with a current row, else one with a row ahead, and refreshes every other. */
  lemma DecideMeaning(snapshot: seq<ModelRun>, it: Item)
    requires CalculationVersionOf(it.model).Some?
    ensures Decide(snapshot, it) == Skip(AlreadyCurrent) <==> exists r :: r in snapshot && IsCurrent(r, it)
    ensures Decide(snapshot, it).Refresh? <==> forall r :: r in snapshot ==> !IsCurrent(r, it) && !IsAhead(r, it)
    ensures Decide(snapshot, it).Skip? && Decide(snapshot, it).status != AlreadyCurrent ==>
              exists r :: r in snapshot && IsAhead(r, it) &&
                Decide(snapshot, it).status == NewerVersion(RunCalculationVersion(r))
  {
    hide RunCalculationVersion, CompareCalculationVersion, CalculationVersionOf, RefreshReason, Supersedes;
    var runs := RunsOf(snapshot, it);
    var expected := CalculationVersionOf(it.model);
    SortMembers(Newer, Filter((r: ModelRun) => r.companyId == it.companyId && r.modelName == it.model, snapshot));
    assert forall r :: r in runs <==> r in snapshot && OfItem(r, it);
    CurrentRunFinds(runs, expected);
    NewerRunFinds(runs, expected);
  }

  /** No row of the item was created later than `r`, nor at the same time with a greater id. */
  ghost predicate NewestOf(snapshot: seq<ModelRun>, it: Item, r: ModelRun) {
    r in snapshot && OfItem(r, it) &&
    forall x :: x in snapshot && OfItem(x, it) ==>
      x.createdAt <= r.createdAt && (x.createdAt == r.createdAt ==> x.id <= r.id)
  }

  /** A refresh names what is wrong with the item's newest row: there is none, it has no version, or an outdated one. */
  lemma RefreshReasonMeaning(snapshot: seq<ModelRun>, it: Item)
    requires CalculationVersionOf(it.model).Some? && Decide(snapshot, it).Refresh?
    ensures Decide(snapshot, it).reason == MissingModelRow <==> forall r :: r in snapshot ==> !OfItem(r, it)
    ensures Decide(snapshot, it).reason != MissingModelRow ==>
              exists r :: NewestOf(snapshot, it, r) &&
                Decide(snapshot, it).reason ==
                (match RunCalculationVersion(r) case None => MissingCalculationVersion case Some(v) => Outdated(v))
  {
    hide RunCalculationVersion, CompareCalculationVersion, CalculationVersionOf, Supersedes, IsCurrent, IsAhead;
    var runs := RunsOf(snapshot, it);
    var chosen := Filter((r: ModelRun) => r.companyId == it.companyId && r.modelName == it.model, snapshot);
    SortMembers(Newer, chosen);
    NewerOrder();
    SortSorts(Newer, chosen);
    assert forall r :: r in runs <==> r in snapshot && OfItem(r, it);
    if runs != [] {
      forall x | x in snapshot && OfItem(x, it) ensures Newer(runs[0], x) {
        assert x in runs;
        var i :| 0 <= i < |runs| && runs[i] == x;
      }
      assert runs[0] in runs;
      assert NewestOf(snapshot, it, runs[0]);
      CurrentRunFinds(runs, CalculationVersionOf(it.model));
    }
  }

  /** A company whose one dcf row carries the first revision is refreshed. */
  lemma FirstRevisionIsOutdated(snapshot: seq<ModelRun>, it: Item, r: ModelRun)
    requires it.model == "dcf" && r in snapshot && forall x :: x in snapshot && OfItem(x, it) <==> x == r
    requires RunCalculationVersion(r) == Some("dcf_ev_bridge_v1")
    ensures Decide(snapshot, it) == Refresh(Outdated("dcf_ev_bridge_v1"))
  {
    hide RunCalculationVersion, CompareCalculationVersion, Supersedes, Decide;
    assert CalculationVersionOf("dcf") == Some("dcf_ev_bridge_v2") by { DcfVersion(); }
    RevisionsInOrder("dcf_ev_bridge", "1", "2");
    assert "dcf_ev_bridge" + "_v" + "1" == "dcf_ev_bridge_v1" && "dcf_ev_bridge" + "_v" + "2" == "dcf_ev_bridge_v2";
    DecideMeaning(snapshot, it);
    RefreshReasonMeaning(snapshot, it);
    assert OfItem(r, it);
  }

  /** A company whose one dcf row carries a third revision is skipped. */
  lemma ThirdRevisionIsNewer(snapshot: seq<ModelRun>, it: Item, r: ModelRun)
    requires it.model == "dcf" && r in snapshot && forall x :: x in snapshot && OfItem(x, it) <==> x == r
    requires RunCalculationVersion(r) == Some("dcf_ev_bridge_v3")
    ensures Decide(snapshot, it) == Skip(NewerVersion(Some("dcf_ev_bridge_v3")))
  {
    hide RunCalculationVersion, CompareCalculationVersion, Supersedes, Decide;
    assert CalculationVersionOf("dcf") == Some("dcf_ev_bridge_v2") by { DcfVersion(); }
    RevisionsInOrder("dcf_ev_bridge", "2", "3");
    assert "dcf_ev_bridge" + "_v" + "2" == "dcf_ev_bridge_v2" && "dcf_ev_bridge" + "_v" + "3" == "dcf_ev_bridge_v3";
    DecideMeaning(snapshot, it);
    assert OfItem(r, it) && IsAhead(r, it);
  }

  lemma DcfVersion()
    ensures CalculationVersionOf("dcf") == Some("dcf_ev_bridge_v2")
  {
  }

  lemma RevisionsInOrder(base: string, x: string, y: string)
    requires IsDigits(x) && IsDigits(y) && |x| == |y| == 1 && x[0] < y[0]
    ensures Supersedes(base + "_v" + y, base + "_v" + x) && !Supersedes(base + "_v" + x, base + "_v" + y)
  {
    hide Supersedes, LastSeparator;
    KeyOfNumbered(base + "_v" + x, base, x);
    KeyOfNumbered(base + "_v" + y, base, y);
    assert NumberOf(x) < NumberOf(y) by { assert NumberOf([]) == 0 && x[..0] == [] && y[..0] == []; }
    AheadExactlyWhenSuperseding(base + "_v" + y, base + "_v" + x);
    AheadExactlyWhenSuperseding(base + "_v" + x, base + "_v" + y);
  }

  /** A version is never ahead of itself, and being ahead is antisymmetric. */
  lemma CompareIsAntisymmetric(a: string, b: string)
    ensures CompareCalculationVersion(a, b) == -CompareCalculationVersion(b, a)
    ensures CompareCalculationVersion(a, a) == 0
  {
  }

  // ----- one item through the engine -----

  /** The scope the argument parser leaves: distinct items of calculation-versioned models in lower case. */
  ghost predicate ValidScope(items: seq<Item>) {
    Distinct(items) && forall it :: it in items ==> Lower(it.model) == it.model && CalculationVersionOf(it.model).Some?
  }

  /** What one engine call for one model does: nothing, a cache hit, or one appended current row of that item. */
  lemma OneModelCall(f: Formula, s: Store, c: Call, it: Item)
    requires ValidStore(s) && c.names == Some([it.model]) && c.companyId == it.companyId && !c.force
    requires Lower(it.model) == it.model && CalculationVersionOf(it.model).Some?
    ensures var (next, reply) := Compute(f, s, c);
            || ((reply.Err? || reply.value == []) && next == s)
            || (reply.Ok? && |reply.value| == 1 && reply.value[0].cached && next == s &&
                exists r :: r in s.runs && IsCurrent(r, it))
            || (reply.Ok? && |reply.value| == 1 && !reply.value[0].cached &&
                |next.runs| == |s.runs| + 1 && next.runs[..|s.runs|] == s.runs && IsCurrent(next.runs[|s.runs|], it))
  {
    hide DatasetOf, SelectDefinitions, Hit, Fill, Candidate, Latest, CalculationVersionOf, RunCalculationVersion, Lower;
    if SelectDefinitions(c.names).Ok? { SelectOne(it.model); }
    if Compute(f, s, c).1.Ok? && Compute(f, s, c).1.value != [] {
      var defs := SelectDefinitions(c.names).value;
      var d := defs[0];
      assert defs == [d];
      var data := DatasetOf(c.tables, c.settings, c.companyId);
      CacheTheorems.FillAnswers(f, s, c, data, defs, 0);
      if Hit(s.runs, c, data, d) {
        CacheTheorems.AllHitsAppendNothing(f, s, c, data, defs);
        HitIsCurrentRun(s, c, data, d, it);
        assert s.runs + [] == s.runs;
      } else {
        FillOneMiss(f, s, c, data, d);
        var added := FreshRun(f, c, data, d, s.nextId);
        FreshIsCurrent(f, c, data, d, it);
        assert (s.runs + [added])[..|s.runs|] == s.runs;
      }
    }
  }

  lemma SelectOne(model: string)
    requires SelectDefinitions(Some([model])).Ok? && Lower(model) == model
    ensures |SelectDefinitions(Some([model])).value| == 1 && SelectDefinitions(Some([model])).value[0].name == model
  {
    hide FindFrom, Lower;
  }

  lemma HitIsCurrentRun(s: Store, c: Call, data: Dataset, d: Definition, it: Item)
    requires ValidStore(s) && Hit(s.runs, c, data, d) && c.companyId == it.companyId && d.name == it.model
    requires CalculationVersionOf(it.model).Some?
    ensures exists r :: r in s.runs && IsCurrent(r, it)
  {
    hide Latest, CalculationVersionOf, RunCalculationVersion;
    var r := Latest(s.runs, c.companyId, d).value;
    LatestIsNewest(s.runs, c.companyId, d, r);
    assert IsCurrent(r, it);
  }

  lemma FillOneMiss(f: Formula, s: Store, c: Call, data: Dataset, d: Definition)
    requires !Hit(s.runs, c, data, d)
    ensures Fill(f, s, c, data, [d]).appended == [FreshRun(f, c, data, d, s.nextId)]
  {
    hide Hit;
    assert [d][..0] == [];
  }

  lemma FreshIsCurrent(f: Formula, c: Call, data: Dataset, d: Definition, it: Item)
    requires d in REGISTRY && c.companyId == it.companyId && d.name == it.model && CalculationVersionOf(it.model).Some?
    ensures forall id :: IsCurrent(FreshRun(f, c, data, d, id), it)
  {
    hide CalculationVersionOf, RunCalculationVersion;
    forall id ensures IsCurrent(FreshRun(f, c, data, d, id), it) {
      CacheTheorems.FreshRunIsCandidate(f, c, data, d, id);
    }
  }

  // ----- a whole pass -----

  predicate Attempted(status: Status) {
    !status.AlreadyCurrent? && !status.NewerVersion?
  }

  /** One item only appends current rows of its own, and does so exactly when it reports a recomputation. */
  lemma ProcessEffect(f: Formula, p: Pass, snapshot: seq<ModelRun>, s: Store, it: Item, i: int)
    requires ValidStore(s) && Lower(it.model) == it.model && CalculationVersionOf(it.model).Some?
    ensures var (next, status) := Process(f, p, snapshot, s, it, i);
            && ValidStore(next) && s.runs <= next.runs
            && (Attempted(status) <==> Decide(snapshot, it).Refresh?)
            && (!status.Recomputed? ==> next == s)
            && (status.Recomputed? ==> |next.runs| == |s.runs| + 1 && IsCurrent(next.runs[|s.runs|], it))
            && (status.CurrentAfterRecheck? ==> exists r :: r in s.runs && IsCurrent(r, it))
  {
    hide Decide, Compute, CalculationVersionOf, RunCalculationVersion, Lower;
    CacheTheorems.ComputeKeepsStore(f, s, CallFor(p, it, i));
    OneModelCall(f, s, CallFor(p, it, i), it);
    if Decide(snapshot, it).Skip? { SkipIsNotFailed(snapshot, it); }
  }

  /** Along a pass, rows beyond the snapshot are current rows of items already recomputed, and of no others. */
  ghost predicate AppendedBy(f: Formula, p: Pass, s: Store, items: seq<Item>, n: nat, r: ModelRun)
    requires n <= |items|
  {
    exists j :: 0 <= j < n && IsCurrent(r, items[j]) && StatusOf(f, p, s, items, j).Recomputed?
  }

  lemma {:induction false} PassInvariant(f: Formula, p: Pass, s: Store, items: seq<Item>, n: nat)
    requires ValidStore(s) && ValidScope(items) && n <= |items|
    ensures ValidStore(StoreAfter(f, p, s, items, n)) && s.runs <= StoreAfter(f, p, s, items, n).runs
    ensures forall r :: r in StoreAfter(f, p, s, items, n).runs ==> r in s.runs || AppendedBy(f, p, s, items, n, r)
  {
    hide Process, CalculationVersionOf, RunCalculationVersion, IsCurrent, Lower;
    if n > 0 {
      PassInvariant(f, p, s, items, n - 1);
      var before := StoreAfter(f, p, s, items, n - 1);
      var after := StoreAfter(f, p, s, items, n);
      assert items[n - 1] in items;
      ProcessEffect(f, p, s.runs, before, items[n - 1], n - 1);
      forall r | r in after.runs && r !in s.runs ensures AppendedBy(f, p, s, items, n, r) {
        if r in before.runs {
          assert AppendedBy(f, p, s, items, n - 1, r);
        } else {
          var added := after.runs[|before.runs|..];
          assert after.runs == before.runs + added;
          assert r in added;
        }
      }
    }
  }

  lemma {:induction false} RecomputedStays(f: Formula, p: Pass, s: Store, items: seq<Item>, j: nat, n: nat)
    requires ValidStore(s) && ValidScope(items) && j < n <= |items| && StatusOf(f, p, s, items, j).Recomputed?
    ensures exists r :: r in StoreAfter(f, p, s, items, n).runs && IsCurrent(r, items[j])
  {
    hide Process, CalculationVersionOf, RunCalculationVersion, IsCurrent, Lower;
    PassInvariant(f, p, s, items, n - 1);
    var before := StoreAfter(f, p, s, items, n - 1);
    assert items[n - 1] in items;
    ProcessEffect(f, p, s.runs, before, items[n - 1], n - 1);
    var after := StoreAfter(f, p, s, items, n);
    if j == n - 1 {
      assert after.runs[|before.runs|] in after.runs;
    } else {
      RecomputedStays(f, p, s, items, j, n - 1);
      var r :| r in before.runs && IsCurrent(r, items[j]);
      assert r in after.runs;
    }
  }

  lemma ItemsDoNotShareRows(r: ModelRun, a: Item, b: Item)
    requires IsCurrent(r, a) && a != b
    ensures !OfItem(r, b)
  {
  }

  /** Rows the pass itself appended are never rows of an item still to come. */
  lemma NotYetTouched(f: Formula, p: Pass, s: Store, items: seq<Item>, i: nat, r: ModelRun)
    requires ValidStore(s) && ValidScope(items) && i < |items|
    requires r in StoreAfter(f, p, s, items, i).runs && r !in s.runs
    ensures !OfItem(r, items[i])
  {
    hide Process, CalculationVersionOf, RunCalculationVersion, Lower;
    PassInvariant(f, p, s, items, i);
    assert AppendedBy(f, p, s, items, i, r);
    var j :| 0 <= j < i && IsCurrent(r, items[j]) && StatusOf(f, p, s, items, j).Recomputed?;
    ItemsDoNotShareRows(r, items[j], items[i]);
  }

  /** The two deciders agree: once the script reaches recomputation, the engine never answers from the cache. */
  lemma RecheckIsNeverCurrent(f: Formula, p: Pass, s: Store, items: seq<Item>, i: nat)
    requires ValidStore(s) && ValidScope(items) && i < |items|
    ensures !StatusOf(f, p, s, items, i).CurrentAfterRecheck?
  {
    hide Process, CalculationVersionOf, RunCalculationVersion, Decide, Lower;
    PassInvariant(f, p, s, items, i);
    var at := StoreAfter(f, p, s, items, i);
    assert items[i] in items;
    ProcessEffect(f, p, s.runs, at, items[i], i);
    DecideMeaning(s.runs, items[i]);
    if Decide(s.runs, items[i]).Refresh? {
      forall r | r in at.runs ensures !IsCurrent(r, items[i]) {
        if r !in s.runs { NotYetTouched(f, p, s, items, i, r); }
      }
    }
  }

  /** A row the pass added for an item means the item was recomputed. */
  lemma AddedMeansRecomputed(f: Formula, p: Pass, s: Store, items: seq<Item>, i: nat, r: ModelRun)
    requires ValidStore(s) && ValidScope(items) && i < |items|
    requires r in StoreAfter(f, p, s, items, |items|).runs && r !in s.runs && OfItem(r, items[i])
    ensures StatusOf(f, p, s, items, i).Recomputed?
  {
    hide Process, CalculationVersionOf, RunCalculationVersion, Lower;
    PassInvariant(f, p, s, items, |items|);
    assert AppendedBy(f, p, s, items, |items|, r);
    var j :| 0 <= j < |items| && IsCurrent(r, items[j]) && StatusOf(f, p, s, items, j).Recomputed?;
    assert items[i] == items[j];
  }

  /**
   A second pass over the same scope, over any data, attempts exactly the items the first pass failed on or got no
   result for.
   */
  lemma SecondPassRetriesExactlyTheUnfinished(f: Formula, p1: Pass, p2: Pass, s: Store, items: seq<Item>, i: nat)
    requires ValidStore(s) && ValidScope(items) && i < |items| && !p1.dryRun
    ensures Attempted(StatusOf(f, p2, StoreAfter(f, p1, s, items, |items|), items, i)) <==>
            StatusOf(f, p1, s, items, i).Failed? || StatusOf(f, p1, s, items, i).NoResult?
  {
    hide CalculationVersionOf, RunCalculationVersion, Decide, Lower, Process, IsCurrent, IsAhead;
    var s1 := StoreAfter(f, p1, s, items, |items|);
    var it := items[i];
    assert it in items;
    PassInvariant(f, p1, s, items, |items|);
    PassInvariant(f, p1, s, items, i);
    PassInvariant(f, p2, s1, items, i);
    ProcessEffect(f, p1, s.runs, StoreAfter(f, p1, s, items, i), it, i);
    ProcessEffect(f, p2, s1.runs, StoreAfter(f, p2, s1, items, i), it, i);
    DecideMeaning(s.runs, it);
    DecideMeaning(s1.runs, it);
    RecheckIsNeverCurrent(f, p1, s, items, i);
    NeverADryRun(f, p1, s.runs, StoreAfter(f, p1, s, items, i), it, i);
    assert forall r :: r in s.runs ==> r in s1.runs;
    if StatusOf(f, p1, s, items, i).Recomputed? {
      RecomputedStays(f, p1, s, items, i, |items|);
    } else if Decide(s.runs, it).Refresh? {
      forall r | r in s1.runs ensures !IsCurrent(r, it) && !IsAhead(r, it) {
        if !OfItem(r, it) { OnlyItsRows(r, it); } else if r !in s.runs { AddedMeansRecomputed(f, p1, s, items, i, r); }
      }
    }
  }

  lemma NeverADryRun(f: Formula, p: Pass, snapshot: seq<ModelRun>, s: Store, it: Item, i: int)
    requires !p.dryRun
    ensures !Process(f, p, snapshot, s, it, i).1.WouldRecompute?
  {
    hide Compute, Decide;
    if Decide(snapshot, it).Skip? { SkipIsNotFailed(snapshot, it); }
  }

  lemma OnlyItsRows(r: ModelRun, it: Item)
    requires !OfItem(r, it)
    ensures !IsCurrent(r, it) && !IsAhead(r, it)
  {
  }

  // ----- scope expansion under a limit -----

  function ItemsOf(companyId: int, models: seq<string>): (r: seq<Item>)
    ensures |r| == |models|
  {
    seq(|models|, i requires 0 <= i < |models| => Item(companyId, models[i]))
  }

  /** The full company-by-model product, company by company. */
  function Product(companies: seq<int>, models: seq<string>): seq<Item> {
    if companies == [] then []
    else Product(companies[..|companies| - 1], models) + ItemsOf(companies[|companies| - 1], models)
  }

  function Take(items: seq<Item>, limit: Option<nat>): seq<Item> {
    if limit.Some? && limit.value < |items| then items[..limit.value] else items
  }

  lemma {:induction false} ProductPrefix(companies: seq<int>, models: seq<string>, k: nat)
    requires k <= |companies|
    ensures Product(companies[..k], models) <= Product(companies, models)
    ensures |Product(companies[..k], models)| == k * |models|
    decreases |companies|
  {
    if k == |companies| {
      assert companies[..k] == companies;
      if k > 0 {
        ProductPrefix(companies[..k - 1], models, k - 1);
        assert companies[..k - 1][..k - 1] == companies[..k - 1];
      }
    } else {
      assert companies[..|companies| - 1][..k] == companies[..k];
      ProductPrefix(companies[..|companies| - 1], models, k);
    }
  }

  lemma ProductStep(companies: seq<int>, models: seq<string>, i: nat)
    requires i < |companies|
    ensures Product(companies[..i + 1], models) == Product(companies[..i], models) + ItemsOf(companies[i], models)
  {
    assert companies[..i + 1][..i] == companies[..i];
  }

  lemma PrefixChain<T>(a: seq<T>, b: seq<T>, j: nat, whole: seq<T>)
    requires j <= |b| && a + b <= whole
    ensures a + b[..j] <= whole
  {
    assert a + b == (a + b[..j]) + b[j..];
  }

  lemma PartialProductIsPrefix(companies: seq<int>, models: seq<string>, i: nat, j: nat)
    requires i < |companies| && j <= |models|
    ensures Product(companies[..i], models) + ItemsOf(companies[i], models)[..j] <= Product(companies, models)
  {
    hide Product;
    ProductStep(companies, models, i);
    ProductPrefix(companies, models, i + 1);
    PrefixChain(Product(companies[..i], models), ItemsOf(companies[i], models), j, Product(companies, models));
  }

  method BuildWorkItems(companies: seq<int>, models: seq<string>, limit: Option<nat>) returns (items: seq<Item>)
    requires limit.Some? ==> limit.value >= 1
    ensures items == Take(Product(companies, models), limit)
  {
    items := [];
    assert companies[..0] == [] && Product([], models) == [];
    hide Product, ItemsOf;
    for i := 0 to |companies|
      invariant items == Product(companies[..i], models)
      invariant limit.Some? ==> |items| < limit.value
    {
      ghost var done := items;
      ProductStep(companies, models, i);
      for j := 0 to |models|
        invariant items == done + ItemsOf(companies[i], models)[..j]
        invariant limit.Some? ==> |items| < limit.value
      {
        items := items + [Item(companies[i], models[j])];
        PartialProductIsPrefix(companies, models, i, j + 1);
        if limit.Some? && |items| >= limit.value {
          return;
        }
      }
    }
    assert companies[..|companies|] == companies;
  }

  function CeilDiv(a: nat, b: nat): (r: nat)
    requires b >= 1
    ensures r * b >= a
    ensures r == 0 || (r - 1) * b < a
  {
    if a <= b then if a == 0 then 0 else 1 else CeilDiv(a - b, b) + 1
  }

  /** The companies loaded for an `--all` run under a limit, in ticker order. */
  function LoadedCompanies(companies: seq<int>, modelCount: nat, limit: Option<nat>): seq<int> {
    if limit == None then companies else
      var quota := CeilDiv(limit.value, if modelCount < 1 then 1 else modelCount);
      var atLeastOne := if quota < 1 then 1 else quota;
      if atLeastOne < |companies| then companies[..atLeastOne] else companies
  }

  /** Limit pushdown: loading only the first companies changes nothing about the limited work list. */
  lemma LimitPushdown(companies: seq<int>, models: seq<string>, limit: Option<nat>)
    requires models != [] && (limit.Some? ==> limit.value >= 1)
    ensures Take(Product(LoadedCompanies(companies, |models|, limit), models), limit) ==
            Take(Product(companies, models), limit)
  {
    var loaded := LoadedCompanies(companies, |models|, limit);
    if |loaded| < |companies| {
      ProductPrefix(companies, models, |loaded|);
      assert |Product(loaded, models)| >= limit.value;
    }
  }
}
