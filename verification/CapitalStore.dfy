/** Persisting a company's capital-structure snapshots: delete all of the company's rows, then upsert the new ones. */
module CapitalStore {
  import opened CapitalStructure
  import opened Financials
  import opened Ordering
  import opened StatementGroups

  /** The table's unique constraint. */
  datatype SnapshotKey = SnapshotKey(companyId: int, periodEnd: int, filingType: string)

  datatype Stored = Stored(snapshot: Snapshot, lastUpdated: int, lastChecked: int)

  function KeyFor(companyId: int, s: Snapshot): SnapshotKey {
    SnapshotKey(companyId, s.row.periodEnd, s.row.filingType)
  }

  function OthersOnly(rows: map<SnapshotKey, Stored>, companyId: int): map<SnapshotKey, Stored> {
    map k | k in rows && k.companyId != companyId :: rows[k]
  }

  /** INSERT ... ON CONFLICT DO UPDATE, row by row. */
  function Upserted(
      rows: map<SnapshotKey, Stored>, companyId: int, snapshots: seq<Snapshot>, at: int): map<SnapshotKey, Stored> {
    if snapshots == [] then rows
    else
      var n := |snapshots| - 1;
      Upserted(rows, companyId, snapshots[..n], at)[KeyFor(companyId, snapshots[n]) := Stored(snapshots[n], at, at)]
  }

  class SnapshotTable {
    var rows: map<SnapshotKey, Stored>

    method UpsertAll(companyId: int, snapshots: seq<Snapshot>, at: int)
      modifies this
      ensures rows == Upserted(old(rows), companyId, snapshots, at)
    {
      for i := 0 to |snapshots|
        invariant rows == Upserted(old(rows), companyId, snapshots[..i], at)
      {
        assert snapshots[..i + 1][..i] == snapshots[..i];
        rows := rows[KeyFor(companyId, snapshots[i]) := Stored(snapshots[i], at, at)];
      }
      assert snapshots[..|snapshots|] == snapshots;
    }

    /** `recompute_and_persist_company_capital_structure`, for the statements of the whole table. */
    method Recompute(statements: seq<Statement>, companyId: int, at: int) returns (count: nat)
      modifies this
      ensures rows == Upserted(OthersOnly(old(rows), companyId), companyId, SnapshotsFor(statements, companyId), at)
      ensures count == |SnapshotsFor(statements, companyId)|
    {
      hide Snapshots, Normalized, OthersOnly, Filter;
      var snapshots := BuildSnapshots(Filter((s: Statement) => Canonical(s, companyId), statements));
      rows := OthersOnly(rows, companyId);
      if |snapshots| == 0 {
        return 0;
      }
      UpsertAll(companyId, snapshots, at);
      return |snapshots|;
    }
  }

  function SnapshotsFor(statements: seq<Statement>, companyId: int): seq<Snapshot> {
    Snapshots(Normalized(Filter((s: Statement) => Canonical(s, companyId), statements)))
  }

  ghost predicate DistinctKeys(companyId: int, snapshots: seq<Snapshot>) {
    forall i, j :: 0 <= i < j < |snapshots| ==> KeyFor(companyId, snapshots[i]) != KeyFor(companyId, snapshots[j])
  }

  /** The upsert never meets its own rows: grouping has made the keys distinct. */
  lemma SnapshotsHaveDistinctKeys(statements: seq<Statement>, companyId: int)
    ensures DistinctKeys(companyId, SnapshotsFor(statements, companyId))
  {
    var financials := Filter((s: Statement) => Canonical(s, companyId), statements);
    RowsAreOrderedSummaries(financials);
    var rows := Normalized(financials);
    var snapshots := SnapshotsFor(statements, companyId);
    hide Normalized, Filter;
    forall i | 0 <= i < |snapshots| ensures snapshots[i].row == rows[i] { RowOfSnapshot(rows, i); }
    forall i, j | 0 <= i < j < |snapshots| ensures KeyFor(companyId, snapshots[i]) != KeyFor(companyId, snapshots[j]) {
      assert RowKey(rows[i]) != RowKey(rows[j]);
    }
  }

  lemma RowOfSnapshot(rows: seq<Row>, i: nat)
    requires i < |rows|
    ensures Snapshots(rows)[i].row == rows[i]
  {
  }

  ghost predicate Written(companyId: int, snapshots: seq<Snapshot>, k: SnapshotKey) {
    exists i :: 0 <= i < |snapshots| && KeyFor(companyId, snapshots[i]) == k
  }

  lemma {:induction false} UpsertKeys(
      rows: map<SnapshotKey, Stored>, companyId: int, snapshots: seq<Snapshot>, at: int, k: SnapshotKey)
    ensures k in Upserted(rows, companyId, snapshots, at) <==> k in rows || Written(companyId, snapshots, k)
    ensures k in rows && !Written(companyId, snapshots, k) ==> Upserted(rows, companyId, snapshots, at)[k] == rows[k]
    decreases |snapshots|
  {
    hide KeyFor;
    if snapshots != [] {
      var n := |snapshots| - 1;
      UpsertKeys(rows, companyId, snapshots[..n], at, k);
      if i :| 0 <= i < |snapshots| && KeyFor(companyId, snapshots[i]) == k {
        if i < n { assert KeyFor(companyId, snapshots[..n][i]) == k; }
      }
      if i :| 0 <= i < n && KeyFor(companyId, snapshots[..n][i]) == k {
        assert KeyFor(companyId, snapshots[i]) == k;
      }
    }
  }

  lemma {:induction false} UpsertWrites(
      rows: map<SnapshotKey, Stored>, companyId: int, snapshots: seq<Snapshot>, at: int, i: nat)
    requires DistinctKeys(companyId, snapshots) && i < |snapshots|
    ensures KeyFor(companyId, snapshots[i]) in Upserted(rows, companyId, snapshots, at)
    ensures Upserted(rows, companyId, snapshots, at)[KeyFor(companyId, snapshots[i])] == Stored(snapshots[i], at, at)
    decreases |snapshots|
  {
    hide KeyFor;
    var n := |snapshots| - 1;
    if i < n { UpsertWrites(rows, companyId, snapshots[..n], at, i); }
  }

  /** A recomputed table, from the table before it. */
  ghost predicate Recomputed(
      before: map<SnapshotKey, Stored>, after: map<SnapshotKey, Stored>, companyId: int, snapshots: seq<Snapshot>,
      at: int) {
    (forall k :: k in after && k.companyId == companyId ==> Written(companyId, snapshots, k)) &&
    (forall i :: 0 <= i < |snapshots| ==>
      KeyFor(companyId, snapshots[i]) in after &&
        after[KeyFor(companyId, snapshots[i])] == Stored(snapshots[i], at, at)) &&
    (forall k: SnapshotKey :: k.companyId != companyId ==>
      (k in after <==> k in before) && (k in before ==> after[k] == before[k]))
  }

  /**
   After a recomputation the table holds exactly the company's snapshots, stamped, and every other company's rows
   unchanged.
   */
  lemma RecomputeMeaning(rows: map<SnapshotKey, Stored>, statements: seq<Statement>, companyId: int, at: int)
    ensures Recomputed(rows, Upserted(OthersOnly(rows, companyId), companyId, SnapshotsFor(statements, companyId), at),
                       companyId, SnapshotsFor(statements, companyId), at)
  {
    hide SnapshotsFor, Upserted;
    var snapshots := SnapshotsFor(statements, companyId);
    SnapshotsHaveDistinctKeys(statements, companyId);
    var after := Upserted(OthersOnly(rows, companyId), companyId, snapshots, at);
    forall i | 0 <= i < |snapshots|
      ensures KeyFor(companyId, snapshots[i]) in after &&
              after[KeyFor(companyId, snapshots[i])] == Stored(snapshots[i], at, at)
    {
      UpsertWrites(OthersOnly(rows, companyId), companyId, snapshots, at, i);
    }
    forall k ensures k in after <==> k in OthersOnly(rows, companyId) || Written(companyId, snapshots, k)
      ensures k in OthersOnly(rows, companyId) && !Written(companyId, snapshots, k) ==> after[k] == rows[k]
    {
      UpsertKeys(OthersOnly(rows, companyId), companyId, snapshots, at, k);
    }
  }

  lemma RecomputedDetermines(a: map<SnapshotKey, Stored>, b: map<SnapshotKey, Stored>, before: map<SnapshotKey, Stored>,
                             companyId: int, snapshots: seq<Snapshot>, at: int)
    requires Recomputed(before, a, companyId, snapshots, at) && Recomputed(before, b, companyId, snapshots, at)
    ensures a == b
  {
    forall k | k in a ensures k in b && a[k] == b[k] { SameEntry(a, b, before, companyId, snapshots, at, k); }
    forall k | k in b ensures k in a { SameEntry(b, a, before, companyId, snapshots, at, k); }
  }

  lemma SameEntry(a: map<SnapshotKey, Stored>, b: map<SnapshotKey, Stored>, before: map<SnapshotKey, Stored>,
                  companyId: int, snapshots: seq<Snapshot>, at: int, k: SnapshotKey)
    requires Recomputed(before, a, companyId, snapshots, at) && Recomputed(before, b, companyId, snapshots, at) &&
             k in a
    ensures k in b && a[k] == b[k]
  {
    hide KeyFor;
    if k.companyId == companyId {
      var i :| 0 <= i < |snapshots| && KeyFor(companyId, snapshots[i]) == k;
    }
  }

  /** Recomputing again only moves the timestamps: the result is as if the first recomputation had not happened. */
  lemma RecomputeIsIdempotent(
      rows: map<SnapshotKey, Stored>, statements: seq<Statement>, companyId: int, at: int, later: int)
    ensures var snapshots := SnapshotsFor(statements, companyId);
            var once := Upserted(OthersOnly(rows, companyId), companyId, snapshots, at);
            Upserted(OthersOnly(once, companyId), companyId, snapshots, later) ==
            Upserted(OthersOnly(rows, companyId), companyId, snapshots, later)
  {
    hide SnapshotsFor, Upserted, OthersOnly;
    var snapshots := SnapshotsFor(statements, companyId);
    var once := Upserted(OthersOnly(rows, companyId), companyId, snapshots, at);
    RecomputeMeaning(rows, statements, companyId, at);
    RecomputeMeaning(rows, statements, companyId, later);
    RecomputeMeaning(once, statements, companyId, later);
    var twice := Upserted(OthersOnly(once, companyId), companyId, snapshots, later);
    RecomputedChains(rows, once, twice, companyId, snapshots, at, later);
    RecomputedDetermines(twice, Upserted(OthersOnly(rows, companyId), companyId, snapshots, later), rows, companyId,
      snapshots, later);
  }

  lemma RecomputedChains(a: map<SnapshotKey, Stored>, b: map<SnapshotKey, Stored>, c: map<SnapshotKey, Stored>,
                         companyId: int, snapshots: seq<Snapshot>, at: int, later: int)
    requires Recomputed(a, b, companyId, snapshots, at) && Recomputed(b, c, companyId, snapshots, later)
    ensures Recomputed(a, c, companyId, snapshots, later)
  {
    hide KeyFor, Written;
  }
}
