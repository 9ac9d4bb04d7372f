/** The migration that moves nine company columns into the refresh-state table, and its reverse, as changes of two
    tables. */
module FreshnessMigration {
  import opened Wrappers

  type Time = int

  datatype Column =
    | InsiderTrades | InstitutionalHoldings | BeneficialOwnership | FilingEvents | CapitalMarkets | CommentLetters
    | Form144Filings | Earnings | ProxyStatements

  /** The nine datasets the columns stood for, and all the others the state table also serves. */
  datatype Dataset =
    | Insiders | Institutional | Ownership | Filings | Markets | Letters | Form144 | EarningsReleases | Proxy
    | Elsewhere(name: string)

  const COLUMNS: seq<Column> :=
    [InsiderTrades, InstitutionalHoldings, BeneficialOwnership, FilingEvents, CapitalMarkets, CommentLetters,
     Form144Filings, Earnings, ProxyStatements]

  const EVERY_COLUMN: set<Column> :=
    {InsiderTrades, InstitutionalHoldings, BeneficialOwnership, FilingEvents, CapitalMarkets, CommentLetters,
     Form144Filings, Earnings, ProxyStatements}

  function DatasetOf(c: Column): Dataset {
    match c
    case InsiderTrades => Insiders
    case InstitutionalHoldings => Institutional
    case BeneficialOwnership => Ownership
    case FilingEvents => Filings
    case CapitalMarkets => Markets
    case CommentLetters => Letters
    case Form144Filings => Form144
    case Earnings => EarningsReleases
    case ProxyStatements => Proxy
  }

  /** The column that stood for a dataset. */
  function ColumnOf(d: Dataset): (r: Option<Column>)
    ensures forall c :: r == Some(c) <==> DatasetOf(c) == d
  {
    match d
    case Insiders => Some(InsiderTrades)
    case Institutional => Some(InstitutionalHoldings)
    case Ownership => Some(BeneficialOwnership)
    case Filings => Some(FilingEvents)
    case Markets => Some(CapitalMarkets)
    case Letters => Some(CommentLetters)
    case Form144 => Some(Form144Filings)
    case EarningsReleases => Some(Earnings)
    case Proxy => Some(ProxyStatements)
    case Elsewhere(_) => None
  }

  /** The place of a column in the migration's list. */
  function Place(c: Column): (i: nat)
    ensures i < |COLUMNS| && COLUMNS[i] == c
  {
    match c
    case InsiderTrades => 0
    case InstitutionalHoldings => 1
    case BeneficialOwnership => 2
    case FilingEvents => 3
    case CapitalMarkets => 4
    case CommentLetters => 5
    case Form144Filings => 6
    case Earnings => 7
    case ProxyStatements => 8
  }

  datatype Key = Key(companyId: int, dataset: Dataset)

  datatype StateRow = StateRow(
    lastChecked: Option<Time>, lastSuccess: Option<Time>, deadline: Option<Time>, activeJob: Option<string>,
    failures: int, lastError: Option<string>, payloadHash: Option<string>, updatedAt: Time)

  /** One company's values in the legacy columns the table still has. */
  type Stamps = map<Column, Option<Time>>

  type Companies = map<int, Stamps>

  type States = map<Key, StateRow>

  datatype Tables = Tables(columns: set<Column>, companies: Companies, states: Option<States>) {

    ghost predicate Valid() {
      forall id :: id in companies ==> companies[id].Keys == columns
    }
  }

  function Stamp(companies: Companies, id: int, c: Column): Option<Time> {
    if id in companies && c in companies[id] then companies[id][c] else None
  }

  function RowAt(states: States, k: Key): Option<StateRow> {
    if k in states then Some(states[k]) else None
  }

  function Later(a: Time, b: Time): Time {
    if a < b then b else a
  }

  /** The later of two timestamps, null being earlier than all. */
  function LaterOf(a: Option<Time>, b: Option<Time>): Option<Time> {
    if a.None? then b else if b.None? then a else Some(Later(a.value, b.value))
  }

  /** Null comes before every time. */
  predicate NotLater(a: Option<Time>, b: Option<Time>) {
    a.None? || (b.Some? && a.value <= b.value)
  }

  // ----- one statement of each direction -----

  /** The insert's row for one timestamp, merged into the row already there. */
  function Absorb(row: Option<StateRow>, t: Time): StateRow {
    match row
    case None => StateRow(Some(t), Some(t), None, None, 0, None, None, t)
    case Some(r) =>
      r.(lastChecked := Some(Later(r.lastChecked.GetOr(t), t)),
         lastSuccess := if r.lastSuccess.Some? then r.lastSuccess else Some(t),
         updatedAt := Later(r.updatedAt, t))
  }

  /** INSERT ... SELECT ... ON CONFLICT for one column. */
  function InsertColumn(companies: Companies, c: Column, states: States): States {
    var added := map id | id in companies && Stamp(companies, id, c).Some? ::
      Key(id, DatasetOf(c)) := Absorb(RowAt(states, Key(id, DatasetOf(c))), Stamp(companies, id, c).value);
    states + added
  }

  /** UPDATE companies ... WHERE the column is null, for one column. */
  function FillColumn(companies: Companies, c: Column, states: States): Companies {
    map id | id in companies :: FillRow(companies[id], c, RowAt(states, Key(id, DatasetOf(c))))
  }

  function FillRow(stamps: Stamps, c: Column, row: Option<StateRow>): Stamps {
    if c in stamps && stamps[c].None? && row.Some? then stamps[c := row.value.lastChecked] else stamps
  }

  function WithoutColumns(companies: Companies, dropped: set<Column>): Companies {
    map id | id in companies :: companies[id] - dropped
  }

  function WithColumn(companies: Companies, c: Column): Companies {
    map id | id in companies :: companies[id][c := None]
  }

  // ----- what each direction does, row by row and cell by cell -----

  /** The state row after the upgrade. */
  function MovedRow(t: Tables, k: Key): Option<StateRow>
    requires t.states.Some?
  {
    var row := RowAt(t.states.value, k);
    match ColumnOf(k.dataset)
    case None => row
    case Some(c) =>
      var stamp := Stamp(t.companies, k.companyId, c);
      if stamp.None? then row else Some(Absorb(row, stamp.value))
  }

  function StampedKeys(companies: Companies): set<Key> {
    set id, c | id in companies && c in companies[id] && companies[id][c].Some? :: Key(id, DatasetOf(c))
  }

  function Upgraded(t: Tables): (r: Tables)
    ensures r.states.Some? <==> t.states.Some?
  {
    var states :=
      if t.states.None? then None
      else
        var keys := t.states.value.Keys + StampedKeys(t.companies);
        Some(map k | k in keys && MovedRow(t, k).Some? :: MovedRow(t, k).value);
    Tables({}, map id | id in t.companies :: map[], states)
  }

  /** The cell after the downgrade. */
  function RestoredStamp(t: Tables, id: int, c: Column): Option<Time> {
    var stamp := Stamp(t.companies, id, c);
    if stamp.Some? || t.states.None? then stamp
    else match RowAt(t.states.value, Key(id, DatasetOf(c))) case None => None case Some(r) => r.lastChecked
  }

  function Downgraded(t: Tables): Tables {
    t.(columns := EVERY_COLUMN,
       companies := map id | id in t.companies :: map c | c in EVERY_COLUMN :: RestoredStamp(t, id, c))
  }

  // ----- lookups determine the tables -----

  lemma SameRows(a: States, b: States)
    requires forall k :: RowAt(a, k) == RowAt(b, k)
    ensures a == b
  {
    forall k ensures k in a <==> k in b ensures k in a ==> a[k] == b[k] {
      assert RowAt(a, k) == RowAt(b, k);
    }
  }

  lemma SameCompanies(a: Companies, b: Companies, columns: set<Column>)
    requires a.Keys == b.Keys
    requires forall id :: id in a ==> a[id].Keys == columns && b[id].Keys == columns
    requires forall id, c :: Stamp(a, id, c) == Stamp(b, id, c)
    ensures a == b
  {
    forall id | id in a ensures a[id] == b[id] {
      forall c | c in columns ensures a[id][c] == b[id][c] {
        assert Stamp(a, id, c) == Stamp(b, id, c);
      }
    }
  }

  lemma InsertedRow(companies: Companies, c: Column, states: States, k: Key)
    ensures RowAt(InsertColumn(companies, c, states), k) ==
            if k.dataset == DatasetOf(c) && Stamp(companies, k.companyId, c).Some?
            then Some(Absorb(RowAt(states, k), Stamp(companies, k.companyId, c).value))
            else RowAt(states, k)
  {
    hide Absorb, DatasetOf;
  }

  lemma UpgradedRow(t: Tables, k: Key)
    requires t.states.Some?
    ensures RowAt(Upgraded(t).states.value, k) == MovedRow(t, k)
  {
    hide Absorb, DatasetOf;
    if MovedRow(t, k).Some? && k !in t.states.value {
      var c := ColumnOf(k.dataset).value;
      assert k.companyId in t.companies && c in t.companies[k.companyId] && t.companies[k.companyId][c].Some?;
    }
  }

  lemma DowngradedStamp(t: Tables, id: int, c: Column)
    ensures Stamp(Downgraded(t).companies, id, c) == if id in t.companies then RestoredStamp(t, id, c) else None
  {
    hide RestoredStamp;
    EveryColumn(c);
  }

  lemma EveryColumn(c: Column)
    ensures c in EVERY_COLUMN
  {
    assert COLUMNS[Place(c)] == c;
  }

  lemma FillKeeps(companies: Companies, c: Column, states: States)
    ensures FillColumn(companies, c, states).Keys == companies.Keys
    ensures forall id :: id in companies ==> FillColumn(companies, c, states)[id].Keys == companies[id].Keys
  {
    hide DatasetOf, RowAt;
  }

  lemma FilledStamp(companies: Companies, c: Column, states: States, id: int, j: Column)
    requires id in companies ==> c in companies[id]
    ensures Stamp(FillColumn(companies, c, states), id, j) ==
            var row := RowAt(states, Key(id, DatasetOf(c)));
            if j == c && id in companies && Stamp(companies, id, c).None? && row.Some? then row.value.lastChecked
            else Stamp(companies, id, j)
  {
    hide DatasetOf, RowAt;
  }

  lemma DowngradedShape(t: Tables)
    ensures Downgraded(t).companies.Keys == t.companies.Keys
    ensures forall id :: id in t.companies ==> Downgraded(t).companies[id].Keys == EVERY_COLUMN
  {
    hide RestoredStamp;
  }

  // ----- the two loops -----

  class Database {
    var columns: set<Column>
    var companies: Companies
    var states: Option<States>

    ghost function Value(): Tables
      reads this
    {
      Tables(columns, companies, states)
    }

    /** The inserts of the upgrade, one per column the table has. */
    method MoveStamps()
      requires Value().Valid() && states.Some?
      modifies `states
      ensures states == Upgraded(old(Value())).states
    {
      hide Absorb, DatasetOf, MovedRow, InsertColumn, Upgraded;
      ghost var before := Value();
      var moved := states.value;
      for i := 0 to |COLUMNS|
        invariant forall k :: RowAt(moved, k) == MovedUpTo(before, k, i)
      {
        ghost var last := moved;
        if COLUMNS[i] in columns {
          moved := InsertColumn(companies, COLUMNS[i], moved);
        }
        forall k ensures RowAt(moved, k) == MovedUpTo(before, k, i + 1) {
          MoveStep(before, last, moved, i, k);
        }
      }
      forall k ensures RowAt(moved, k) == RowAt(Upgraded(before).states.value, k) {
        UpgradedRow(before, k);
        AllMoved(before, k);
      }
      SameRows(moved, Upgraded(before).states.value);
      states := Some(moved);
    }

    method Upgrade()
      requires Value().Valid()
      modifies this
      ensures Value() == Upgraded(old(Value())) && Value().Valid()
    {
      hide Absorb, DatasetOf, MovedRow, Place;
      if states.Some? {
        MoveStamps();
      }
      ghost var dropped: set<Column> := {};
      NothingDropped(companies);
      var present := columns;
      for i := 0 to |COLUMNS|
        invariant dropped == set c | c in present && Place(c) < i
        invariant columns == present - dropped && companies == WithoutColumns(old(companies), dropped)
        invariant states == Upgraded(old(Value())).states
      {
        PlaceOf(i);
        if COLUMNS[i] in present {
          DropStep(old(companies), dropped, COLUMNS[i]);
          columns := columns - {COLUMNS[i]};
          companies := WithoutColumns(companies, {COLUMNS[i]});
          dropped := dropped + {COLUMNS[i]};
        }
      }
      AllDropped(old(Value()), dropped);
    }

    /** The columns the downgrade adds, all null. */
    method AddColumns()
      requires Value().Valid()
      modifies `columns, `companies
      ensures Value().Valid() && columns == EVERY_COLUMN && companies.Keys == old(companies).Keys
      ensures forall id, c :: Stamp(companies, id, c) == Stamp(old(companies), id, c)
    {
      hide DatasetOf, Place;
      var present := columns;
      for i := 0 to |COLUMNS|
        invariant Value().Valid() && companies.Keys == old(companies).Keys
        invariant columns == present + (set c | c in EVERY_COLUMN && Place(c) < i)
        invariant forall id, c :: Stamp(companies, id, c) == Stamp(old(companies), id, c)
      {
        PlaceOf(i);
        EveryColumn(COLUMNS[i]);
        if COLUMNS[i] !in present {
          NewColumn(companies, columns, COLUMNS[i]);
          companies := WithColumn(companies, COLUMNS[i]);
          columns := columns + {COLUMNS[i]};
        }
      }
      forall c ensures c in EVERY_COLUMN && Place(c) < |COLUMNS| { EveryColumn(c); }
    }

    /** The updates of the downgrade, one per column. */
    method FillColumns()
      requires Value().Valid() && columns == EVERY_COLUMN && states.Some?
      modifies `companies
      ensures Value().Valid() && companies.Keys == old(companies).Keys
      ensures forall id, c :: Stamp(companies, id, c) == RestoredUpTo(old(Value()), id, c, |COLUMNS|)
    {
      hide DatasetOf, FillColumn, RestoredUpTo, Stamp;
      ghost var before := Value();
      forall id, c
        ensures Stamp(companies, id, c) == RestoredUpTo(before, id, c, 0) { NothingRestoredYet(before, id, c); }
      for i := 0 to |COLUMNS|
        invariant Value().Valid() && companies.Keys == before.companies.Keys
        invariant forall id, c :: Stamp(companies, id, c) == RestoredUpTo(before, id, c, i)
      {
        ghost var last := companies;
        EveryColumn(COLUMNS[i]);
        companies := FillColumn(companies, COLUMNS[i], states.value);
        FillKeeps(last, COLUMNS[i], states.value);
        forall id, c ensures Stamp(companies, id, c) == RestoredUpTo(before, id, c, i + 1) {
          RestoreStep(before, last, i, id, c);
        }
      }
    }

    method Downgrade()
      requires Value().Valid()
      modifies this
      ensures Value() == Downgraded(old(Value())) && Value().Valid()
    {
      hide DatasetOf, RestoredUpTo, RestoredStamp, Stamp;
      ghost var before := Value();
      AddColumns();
      ghost var added := Value();
      if states.Some? {
        FillColumns();
      }
      forall id, c ensures Stamp(companies, id, c) == RestoredUpTo(before, id, c, |COLUMNS|) {
        SameRestored(before, added, id, c);
      }
      AllRestored(before, companies);
    }
  }

  lemma PlaceOf(i: nat)
    requires i < |COLUMNS|
    ensures Place(COLUMNS[i]) == i
    ensures forall c :: Place(c) == i <==> c == COLUMNS[i]
  {
  }

  /** The state row once the first i columns have moved. */
  ghost function MovedUpTo(t: Tables, k: Key, i: nat): Option<StateRow>
    requires t.states.Some?
  {
    match ColumnOf(k.dataset)
    case None => RowAt(t.states.value, k)
    case Some(c) => if Place(c) < i then MovedRow(t, k) else RowAt(t.states.value, k)
  }

  lemma AllMoved(t: Tables, k: Key)
    requires t.states.Some?
    ensures MovedUpTo(t, k, |COLUMNS|) == MovedRow(t, k)
  {
    hide DatasetOf, Absorb;
  }

  lemma MoveStep(t: Tables, last: States, moved: States, i: nat, k: Key)
    requires t.states.Some? && t.Valid() && i < |COLUMNS|
    requires RowAt(last, k) == MovedUpTo(t, k, i)
    requires moved == if COLUMNS[i] in t.columns then InsertColumn(t.companies, COLUMNS[i], last) else last
    ensures RowAt(moved, k) == MovedUpTo(t, k, i + 1)
  {
    hide Absorb, DatasetOf, InsertColumn, Place, ColumnOf;
    PlaceOf(i);
    if COLUMNS[i] in t.columns {
      InsertedRow(t.companies, COLUMNS[i], last, k);
    } else {
      assert Stamp(t.companies, k.companyId, COLUMNS[i]).None?;
    }
  }

  lemma NothingDropped(companies: Companies)
    ensures WithoutColumns(companies, {}) == companies
  {
    forall id | id in companies ensures companies[id] - {} == companies[id] {
    }
  }

  lemma DropStep(companies: Companies, dropped: set<Column>, c: Column)
    ensures WithoutColumns(WithoutColumns(companies, dropped), {c}) == WithoutColumns(companies, dropped + {c})
  {
    forall id | id in companies
      ensures companies[id] - dropped - {c} == companies[id] - (dropped + {c})
    {
    }
  }

  lemma AllDropped(t: Tables, dropped: set<Column>)
    requires t.Valid() && dropped == set c | c in t.columns && Place(c) < |COLUMNS|
    ensures t.columns - dropped == {} && WithoutColumns(t.companies, dropped) == Upgraded(t).companies
  {
    hide Absorb, DatasetOf, MovedRow;
    assert dropped == t.columns;
    forall id | id in t.companies ensures t.companies[id] - dropped == map[] {
      assert (t.companies[id] - dropped).Keys == {};
    }
  }

  lemma NewColumn(companies: Companies, columns: set<Column>, c: Column)
    requires c !in columns && forall id :: id in companies ==> companies[id].Keys == columns
    ensures WithColumn(companies, c).Keys == companies.Keys
    ensures forall id :: id in companies ==> WithColumn(companies, c)[id].Keys == columns + {c}
    ensures forall id, j :: Stamp(WithColumn(companies, c), id, j) == Stamp(companies, id, j)
  {
  }

  /** The cell once the first i columns have been filled. */
  ghost function RestoredUpTo(t: Tables, id: int, c: Column, i: nat): Option<Time> {
    if id in t.companies && Place(c) < i then RestoredStamp(t, id, c) else Stamp(t.companies, id, c)
  }

  lemma RestoreStep(t: Tables, last: Companies, i: nat, id: int, c: Column)
    requires t.states.Some? && i < |COLUMNS| && last.Keys == t.companies.Keys
    requires forall j :: j in last ==> COLUMNS[i] in last[j]
    requires Stamp(last, id, c) == RestoredUpTo(t, id, c, i)
    ensures Stamp(FillColumn(last, COLUMNS[i], t.states.value), id, c) == RestoredUpTo(t, id, c, i + 1)
  {
    hide DatasetOf, FillColumn, Place;
    PlaceOf(i);
    FilledStamp(last, COLUMNS[i], t.states.value, id, c);
  }

  lemma NothingRestoredYet(t: Tables, id: int, c: Column)
    ensures RestoredUpTo(t, id, c, 0) == Stamp(t.companies, id, c)
  {
  }

  /** The restored cells do not depend on which columns were already there; without the state table there are none. */
  lemma SameRestored(t: Tables, added: Tables, id: int, c: Column)
    requires added.states == t.states && added.companies.Keys == t.companies.Keys
    requires Stamp(added.companies, id, c) == Stamp(t.companies, id, c)
    ensures RestoredUpTo(added, id, c, |COLUMNS|) == RestoredUpTo(t, id, c, |COLUMNS|)
    ensures t.states.None? ==> Stamp(t.companies, id, c) == RestoredUpTo(t, id, c, |COLUMNS|)
  {
    hide DatasetOf, Place;
  }

  lemma RestoredCell(t: Tables, id: int, c: Column)
    ensures RestoredUpTo(t, id, c, |COLUMNS|) == Stamp(Downgraded(t).companies, id, c)
  {
    hide DatasetOf, RestoredStamp, Downgraded;
    DowngradedStamp(t, id, c);
  }

  lemma AllRestored(t: Tables, companies: Companies)
    requires companies.Keys == t.companies.Keys && forall id :: id in companies ==> companies[id].Keys == EVERY_COLUMN
    requires forall id, c :: Stamp(companies, id, c) == RestoredUpTo(t, id, c, |COLUMNS|)
    ensures companies == Downgraded(t).companies
  {
    hide RestoredUpTo, Downgraded, Stamp;
    DowngradedShape(t);
    forall id, c ensures Stamp(companies, id, c) == Stamp(Downgraded(t).companies, id, c) {
      RestoredCell(t, id, c);
    }
    SameCompanies(companies, Downgraded(t).companies, EVERY_COLUMN);
  }

  // ----- what the migration promises -----

  /** The upgrade keeps every state row, moves no last_checked or updated_at back, keeps every success, and touches
      nothing else. */
  lemma UpgradeNeverMovesBack(t: Tables, k: Key)
    requires t.states.Some? && k in t.states.value
    ensures k in Upgraded(t).states.value
    ensures var (was, now) := (t.states.value[k], Upgraded(t).states.value[k]);
      && NotLater(was.lastChecked, now.lastChecked) && was.updatedAt <= now.updatedAt
      && (was.lastSuccess.Some? ==> now.lastSuccess == was.lastSuccess)
      && now == was.(lastChecked := now.lastChecked, lastSuccess := now.lastSuccess, updatedAt := now.updatedAt)
  {
    hide DatasetOf, Upgraded;
    UpgradedRow(t, k);
  }

  /** No company timestamp is lost, and none is overstated: last_checked is the later of the company's and the row's
      own. */
  lemma UpgradeKeepsEveryStamp(t: Tables, id: int, c: Column)
    requires t.states.Some? && Stamp(t.companies, id, c).Some?
    ensures var k := Key(id, DatasetOf(c));
      && k in Upgraded(t).states.value
      && Upgraded(t).states.value[k].lastChecked == LaterOf(Stamp(t.companies, id, c), LastChecked(t, k))
      && Upgraded(t).states.value[k].lastSuccess.Some?
      && (k !in t.states.value ==>
          var stamp := Stamp(t.companies, id, c);
          Upgraded(t).states.value[k] == StateRow(stamp, stamp, None, None, 0, None, None, stamp.value))
  {
    hide Upgraded;
    UpgradedRow(t, Key(id, DatasetOf(c)));
    assert ColumnOf(DatasetOf(c)) == Some(c);
  }

  /** A row no company timestamp stands behind is left exactly as it was, and no other row appears. */
  lemma UpgradeTouchesNothingElse(t: Tables, k: Key)
    requires t.states.Some?
    requires forall c :: DatasetOf(c) == k.dataset ==> Stamp(t.companies, k.companyId, c).None?
    ensures RowAt(Upgraded(t).states.value, k) == RowAt(t.states.value, k)
  {
    hide Upgraded, Absorb;
    UpgradedRow(t, k);
    if ColumnOf(k.dataset).Some? {
      assert DatasetOf(ColumnOf(k.dataset).value) == k.dataset;
    }
  }

  function LastChecked(t: Tables, k: Key): Option<Time> {
    if t.states.Some? && k in t.states.value then t.states.value[k].lastChecked else None
  }

  lemma NoStampLeft(t: Tables, id: int, c: Column)
    ensures Upgraded(t).columns == {} && Upgraded(t).companies.Keys == t.companies.Keys
    ensures Upgraded(t).states.Some? <==> t.states.Some?
    ensures Stamp(Upgraded(t).companies, id, c) == None
    ensures id in t.companies <==> id in Upgraded(t).companies
  {
    hide MovedRow;
  }

  /** Upgrading and downgrading leaves the later of the company's timestamp and the state row's; without the state
      table, nothing. */
  lemma RoundTrip(t: Tables, id: int, c: Column)
    requires id in t.companies
    ensures Stamp(Downgraded(Upgraded(t)).companies, id, c) ==
            if t.states.None? then None else LaterOf(Stamp(t.companies, id, c), LastChecked(t, Key(id, DatasetOf(c))))
  {
    hide Upgraded, Downgraded;
    NoStampLeft(t, id, c);
    DowngradedStamp(Upgraded(t), id, c);
    if t.states.Some? {
      UpgradedRow(t, Key(id, DatasetOf(c)));
      assert ColumnOf(DatasetOf(c)) == Some(c);
    }
  }

  /** Nothing newer than the company's own timestamp was known, or, without a state table, there was no timestamp. */
  predicate Recoverable(t: Tables, id: int, c: Column) {
    if t.states.None? then Stamp(t.companies, id, c).None?
    else NotLater(LastChecked(t, Key(id, DatasetOf(c))), Stamp(t.companies, id, c))
  }

  /** The company table comes back from a round trip exactly when every cell was recoverable. */
  lemma RoundTripIsExactWhen(t: Tables)
    requires t.Valid() && t.columns == EVERY_COLUMN
    ensures Downgraded(Upgraded(t)).companies == t.companies <==>
            forall id, c :: id in t.companies ==> Recoverable(t, id, c)
  {
    hide Upgraded, Downgraded, Recoverable, Stamp;
    var back := Downgraded(Upgraded(t)).companies;
    NoStampLeft(t, 0, InsiderTrades);
    DowngradedShape(Upgraded(t));
    forall id, c
      ensures Stamp(back, id, c) == Stamp(t.companies, id, c) <==> (id in t.companies ==> Recoverable(t, id, c)) {
      RoundTripAt(t, id, c);
    }
    if forall id, c :: id in t.companies ==> Recoverable(t, id, c) {
      SameCompanies(back, t.companies, EVERY_COLUMN);
    }
  }

  lemma RoundTripAt(t: Tables, id: int, c: Column)
    ensures Stamp(Downgraded(Upgraded(t)).companies, id, c) == Stamp(t.companies, id, c) <==>
            (id in t.companies ==> Recoverable(t, id, c))
  {
    hide Upgraded, Downgraded, DatasetOf, LastChecked;
    if id in t.companies {
      RoundTrip(t, id, c);
    } else {
      NoStampLeft(t, id, c);
      DowngradedStamp(Upgraded(t), id, c);
    }
  }

  /** A checked row that also succeeded, and was not checked after its last update. */
  predicate Settled(r: StateRow) {
    r.lastChecked.Some? ==> r.lastSuccess.Some? && r.lastChecked.value <= r.updatedAt
  }

  /** Downgrading and upgrading again keeps a state row exactly when it is settled: otherwise a check that never
      succeeded comes back as a success, or the row as updated later than it was. */
  lemma UpgradeAgainKeepsRowWhen(t: Tables, k: Key)
    requires t.columns == {} && t.Valid() && t.states.Some? && k in t.states.value
    requires k.companyId in t.companies && ColumnOf(k.dataset).Some?
    ensures RowAt(Upgraded(Downgraded(t)).states.value, k) == Some(t.states.value[k]) <==> Settled(t.states.value[k])
  {
    hide Upgraded, Downgraded;
    DowngradeKeepsStates(t);
    UpgradedRow(Downgraded(t), k);
    var c := ColumnOf(k.dataset).value;
    assert DatasetOf(c) == k.dataset && Stamp(t.companies, k.companyId, c).None?;
    DowngradedStamp(t, k.companyId, c);
  }

  lemma DowngradeKeepsStates(t: Tables)
    ensures Downgraded(t).states == t.states && Downgraded(t).companies.Keys == t.companies.Keys
  {
    hide RestoredStamp;
  }

  /** A failed check turned into a success: nine timestamps never carried whether the check had succeeded. */
  lemma FailedCheckComesBackAsSuccess(t: Tables, k: Key)
    requires t.columns == {} && t.Valid() && t.states.Some? && k in t.states.value
    requires k.companyId in t.companies && ColumnOf(k.dataset).Some?
    requires t.states.value[k].lastChecked.Some? && t.states.value[k].lastSuccess.None?
    ensures k in Upgraded(Downgraded(t)).states.value
    ensures Upgraded(Downgraded(t)).states.value[k].lastSuccess == t.states.value[k].lastChecked
  {
    hide Upgraded, Downgraded;
    DowngradeKeepsStates(t);
    UpgradedRow(Downgraded(t), k);
    var c := ColumnOf(k.dataset).value;
    assert DatasetOf(c) == k.dataset && Stamp(t.companies, k.companyId, c).None?;
    DowngradedStamp(t, k.companyId, c);
  }
}
