/**
 The capital-structure roll-forward: `build_capital_structure_snapshots` walks the rows in period order, carrying the
 previous one, and computes debt and share bridges from optional inputs. Amounts are reals; `json_number` keeps values.
 */
module CapitalStructure {
  import opened Financials
  import opened Ordering
  import opened StatementGroups
  import opened Wrappers

  type Amount = Option<real>

  function Number(r: Row, key: string): Amount {
    if key in r.numbers then Some(r.numbers[key]) else None
  }

  function Abs(x: Amount): (r: Amount)
    ensures r.Some? <==> x.Some?
    ensures r.Some? ==> r.value >= 0.0
  {
    if x.Some? && x.value < 0.0 then Some(-x.value) else x
  }

  function Negated(x: Amount): Amount {
    if x.Some? then Some(-x.value) else None
  }

  /** `_sum_non_null`: missing terms count as nothing, and nothing at all is missing. */
  function SumNonNull(a: Amount, b: Amount): Amount {
    if a.Some? && b.Some? then Some(a.value + b.value) else if a.Some? then a else b
  }

  function Average(xs: seq<Amount>): (r: Amount)
    ensures r.Some? <==> exists x :: x in xs && x.Some?
  {
    var total := Present(xs);
    if total.0 == 0 then None else Some(total.1 / total.0 as real)
  }

  /** How many values are present, and their sum. */
  function Present(xs: seq<Amount>): (r: (nat, real))
    ensures r.0 == 0 <==> forall x :: x in xs ==> x.None?
    ensures r.0 <= |xs|
  {
    if xs == [] then (0, 0.0)
    else
      var rest := Present(xs[1..]);
      assert xs[0] in xs && forall x :: x in xs <==> x == xs[0] || x in xs[1..];
      if xs[0].Some? then (rest.0 + 1, rest.1 + xs[0].value) else rest
  }

  function SafeDivide(a: Amount, b: Amount): Amount {
    if a == None || b == None || b.value == 0.0 then None else Some(a.value / b.value)
  }

  const DEBT_BUCKETS: seq<string> := [
    "debt_maturity_due_next_twelve_months", "debt_maturity_due_year_two", "debt_maturity_due_year_three",
    "debt_maturity_due_year_four", "debt_maturity_due_year_five", "debt_maturity_due_thereafter"]

  const LEASE_BUCKETS: seq<string> := [
    "lease_due_next_twelve_months", "lease_due_year_two", "lease_due_year_three", "lease_due_year_four",
    "lease_due_year_five", "lease_due_thereafter"]

  datatype Bucket = Bucket(key: string, amount: real)

  function BucketRows(r: Row, keys: seq<string>): seq<Bucket> {
    if keys == [] then []
    else
      var amount := Abs(Number(r, keys[0]));
      (if amount.Some? then [Bucket(keys[0], amount.value)] else []) + BucketRows(r, keys[1..])
  }

  function BucketAmount(rows: seq<Bucket>, key: string): Amount {
    if rows == [] then None else if rows[0].key == key then Some(rows[0].amount) else BucketAmount(rows[1..], key)
  }

  function BucketFlags(section: string, buckets: seq<Bucket>, expected: nat): set<string> {
    if buckets == [] then {section + "_missing"}
    else if |buckets| < expected then {section + "_partial"}
    else {}
  }

  function MissingNames(names: seq<string>, values: seq<Amount>): seq<string>
    requires |names| == |values|
  {
    if names == [] then []
    else (if values[0].None? then [names[0]] else []) + MissingNames(names[1..], values[1..])
  }

  /** `_missing_flags`. */
  function MissingFlags(prefix: string, names: seq<string>, values: seq<Amount>): set<string>
    requires |names| == |values|
  {
    var missing := MissingNames(names, values);
    if missing == [] then {}
    else if |missing| == |names| then {prefix + "_missing"}
    else {prefix + "_partial"} + set n | n in missing :: prefix + "_" + n + "_missing"
  }

  type Fraction = x: real | 0.0 <= x <= 1.0 witness 0.0

  datatype Meta = Meta(asOf: int, refreshedAt: Option<int>, confidence: Fraction, flags: set<string>)

  /** The section's clamped share of present values. */
  function SectionMeta(r: Row, flags: set<string>, present: nat, total: nat): Meta {
    var ratio := if total == 0 then 0.0 else present as real / total as real;
    Meta(r.periodEnd, r.lastChecked, if ratio > 1.0 then 1.0 else ratio, flags)
  }

  datatype DebtRollforward = DebtRollforward(
    opening: Amount, ending: Amount, issued: Amount, repaid: Amount, netChange: Amount, unexplained: Amount,
    meta: Meta)

  datatype DilutionBridge = DilutionBridge(
    opening: Amount, issued: Amount, issuedProxy: Amount, repurchased: Amount, other: Amount, ending: Amount,
    dilutedAverage: Amount, netChange: Amount, netRatio: Amount, meta: Meta)

  datatype InterestBurden = InterestBurden(
    expense: Amount, averageDebt: Amount, toAverageDebt: Amount, toRevenue: Amount, toOperatingCashFlow: Amount,
    coverage: Amount, meta: Meta)

  datatype CapitalReturns = CapitalReturns(
    dividends: Amount, repurchases: Amount, stockCompensation: Amount, grossPayout: Amount, netPayout: Amount,
    dividendShare: Amount, repurchaseShare: Amount, compensationOffset: Amount, meta: Meta)

  datatype Ladder = Ladder(buckets: seq<Bucket>, meta: Meta)

  datatype Summary = Summary(
    totalDebt: Amount, leaseLiabilities: Amount, interestExpense: Amount, debtDueNextYear: Amount,
    leaseDueNextYear: Amount, grossPayout: Amount, netPayout: Amount, netShareChange: Amount,
    netDilutionRatio: Amount)

  datatype Snapshot = Snapshot(
    row: Row, summary: Summary, debtLadder: Ladder, leases: Ladder, debt: DebtRollforward, interest: InterestBurden,
    payouts: CapitalReturns, dilution: DilutionBridge, qualityFlags: set<string>, confidence: Amount)

  function TotalDebt(r: Row): Amount {
    SumNonNull(Number(r, "current_debt"), Number(r, "long_term_debt"))
  }

  function Shares(r: Row): Amount {
    Number(r, "shares_outstanding")
  }

  /** A value of the previous row, missing on the first. */
  function Carried(previous: Option<Row>, f: Row -> Amount): Amount {
    if previous.Some? then f(previous.value) else None
  }

  function LadderOf(r: Row, section: string, keys: seq<string>): Ladder {
    var buckets := BucketRows(r, keys);
    Ladder(buckets, SectionMeta(r, BucketFlags(section, buckets, |keys|), |buckets|, |keys|))
  }

  function DebtOf(previous: Option<Row>, r: Row): DebtRollforward {
    var opening, ending := Carried(previous, TotalDebt), TotalDebt(r);
    var issued, repaid := Abs(Number(r, "debt_issuance")), Abs(Number(r, "debt_repayment"));
    var reported := Number(r, "debt_changes");
    var net := if reported == None && issued.Some? && repaid.Some? then Some(issued.value - repaid.value) else reported;
    var unexplained :=
      if ending.Some? && opening.Some? && issued.Some? && repaid.Some?
      then Some(ending.value - opening.value - issued.value + repaid.value) else None;
    var flags :=
      MissingFlags("debt_rollforward", ["opening_total_debt", "ending_total_debt", "debt_issued", "debt_repaid"],
                              [opening, ending, issued, repaid]);
    DebtRollforward(opening, ending, issued, repaid, net, unexplained,
                    SectionMeta(r, flags, Present([opening, ending, issued, repaid]).0, 4))
  }

  function InterestOf(previous: Option<Row>, r: Row): InterestBurden {
    var opening, ending := Carried(previous, TotalDebt), TotalDebt(r);
    var expense := Abs(Number(r, "interest_expense"));
    var averageDebt := if opening.Some? then Average([opening, ending]) else ending;
    var toAverage := SafeDivide(expense, averageDebt);
    var coverage := SafeDivide(Number(r, "operating_income"), expense);
    var flags := MissingFlags("interest_burden", ["interest_expense", "average_debt", "interest_to_average_debt"],
                              [expense, averageDebt, toAverage]);
    InterestBurden(expense, averageDebt, toAverage, SafeDivide(expense, Number(r, "revenue")),
                   SafeDivide(expense, Abs(Number(r, "operating_cash_flow"))), coverage,
                   SectionMeta(r, flags, Present([expense, averageDebt, toAverage, coverage]).0, 4))
  }

  function ReturnsOf(r: Row): CapitalReturns {
    var dividends, repurchases := Abs(Number(r, "dividends")), Abs(Number(r, "share_buybacks"));
    var compensation := Abs(Number(r, "stock_based_compensation"));
    var gross := SumNonNull(dividends, repurchases);
    var flags := MissingFlags("capital_returns", ["dividends", "share_repurchases", "stock_based_compensation"],
                              [dividends, repurchases, compensation]);
    CapitalReturns(dividends, repurchases, compensation, gross, SumNonNull(gross, Negated(compensation)),
                   SafeDivide(dividends, gross), SafeDivide(repurchases, gross),
                   SafeDivide(compensation, SumNonNull(gross, compensation)),
                   SectionMeta(r, flags, Present([dividends, repurchases, compensation]).0, 3))
  }

  /** Issued shares as the bridge uses them: reported, else the dilution proxy. */
  function EffectiveIssued(b: DilutionBridge): Amount {
    if b.issued.Some? then b.issued else b.issuedProxy
  }

  function DilutionOf(previous: Option<Row>, r: Row): DilutionBridge {
    var opening, ending := Carried(previous, Shares), Shares(r);
    var issued, repurchased := Abs(Number(r, "shares_issued")), Abs(Number(r, "shares_repurchased"));
    var diluted := Number(r, "weighted_average_diluted_shares");
    var usesProxy := issued == None && diluted.Some? && ending.Some?;
    var proxy :=
      if !usesProxy then None
      else if diluted.value > ending.value then Some(diluted.value - ending.value)
      else Some(0.0);
    var effective := if issued.Some? then issued else proxy;
    var other :=
      if opening.Some? && ending.Some? && effective.Some?
      then Some(ending.value - opening.value - effective.value + repurchased.GetOr(0.0)) else None;
    var net := if opening == None || ending == None then None else Some(ending.value - opening.value);
    var names := ["opening_shares", "ending_shares", "weighted_average_diluted_shares"];
    var flags := (if usesProxy then {"net_dilution_bridge_shares_issued_proxy"} else {}) +
                 MissingFlags("net_dilution_bridge", names, [opening, ending, diluted]);
    DilutionBridge(opening, issued, proxy, repurchased, other, ending, diluted, net, SafeDivide(net, opening),
                   SectionMeta(r, flags, Present([opening, ending, diluted, effective]).0, 4))
  }

  /** One snapshot from a row and the row before it. */
  function SnapshotOf(previous: Option<Row>, r: Row): Snapshot {
    var debtLadder := LadderOf(r, "debt_maturity_ladder", DEBT_BUCKETS);
    var leases := LadderOf(r, "lease_obligations", LEASE_BUCKETS);
    var debt, interest, payouts, dilution := DebtOf(previous, r), InterestOf(previous, r), ReturnsOf(r),
      DilutionOf(previous, r);
    var metas := [debtLadder.meta, leases.meta, debt.meta, interest.meta, payouts.meta, dilution.meta];
    Snapshot(r,
             Summary(debt.ending, Number(r, "lease_liabilities"), interest.expense,
                     BucketAmount(debtLadder.buckets, "debt_maturity_due_next_twelve_months"),
                     BucketAmount(leases.buckets, "lease_due_next_twelve_months"), payouts.grossPayout,
                       payouts.netPayout,
                     dilution.netChange, dilution.netRatio),
             debtLadder, leases, debt, interest, payouts, dilution,
             (if r.restated then {"restatement_detected"} else {}) + debtLadder.meta.flags + leases.meta.flags +
               debt.meta.flags + interest.meta.flags + payouts.meta.flags + dilution.meta.flags,
             Overall(metas))
  }

  function Overall(metas: seq<Meta>): Amount {
    Average(seq(|metas|, i requires 0 <= i < |metas| => Some(metas[i].confidence)))
  }

  function PreviousRow(rows: seq<Row>, i: nat): Option<Row>
    requires i <= |rows|
  {
    if i == 0 then None else Some(rows[i - 1])
  }

  function Snapshots(rows: seq<Row>): (r: seq<Snapshot>)
    ensures |r| == |rows| && forall i :: 0 <= i < |rows| ==> r[i] == SnapshotOf(PreviousRow(rows, i), rows[i])
  {
    seq(|rows|, i requires 0 <= i < |rows| => SnapshotOf(PreviousRow(rows, i), rows[i]))
  }

  method BuildSnapshots(statements: seq<Statement>) returns (snapshots: seq<Snapshot>)
    ensures snapshots == Snapshots(Normalized(statements))
  {
    hide SnapshotOf, Normalized;
    var rows := NormalizeFinancialRows(statements);
    snapshots := [];
    var previous: Option<Row> := None;
    for i := 0 to |rows|
      invariant previous == PreviousRow(rows, i)
      invariant |snapshots| == i && forall j :: 0 <= j < i ==> snapshots[j] == SnapshotOf(PreviousRow(rows, j), rows[j])
    {
      snapshots := snapshots + [SnapshotOf(previous, rows[i])];
      previous := Some(rows[i]);
    }
  }

  // ----- conservation -----

  /** Each snapshot opens with what the one before it ended with. */
  lemma OpensWithPreviousEnding(rows: seq<Row>, i: nat)
    requires i < |rows|
    ensures Snapshots(rows)[i].debt.opening == if i == 0 then None else Snapshots(rows)[i - 1].debt.ending
    ensures Snapshots(rows)[i].dilution.opening == if i == 0 then None else Snapshots(rows)[i - 1].dilution.ending
  {
  }

  /** One leg of a bridge: what it opens with, the movement it explains, and what it ends with. */
  datatype Leg = Leg(opening: Amount, movement: Amount, ending: Amount)

  /** Debt: issued - repaid + unexplained. */
  function DebtLeg(s: Snapshot): Leg {
    var d := s.debt;
    Leg(d.opening,
        if d.unexplained.Some? && d.issued.Some? && d.repaid.Some?
        then Some(d.issued.value - d.repaid.value + d.unexplained.value) else None,
        d.ending)
  }

  /** Shares: effective issued - repurchased + other. */
  function ShareLeg(s: Snapshot): Leg {
    var b := s.dilution;
    Leg(b.opening,
        if b.other.Some? && EffectiveIssued(b).Some?
        then Some(EffectiveIssued(b).value - b.repurchased.GetOr(0.0) + b.other.value) else None,
        b.ending)
  }

  /** A defined movement takes a known opening to a known ending. */
  predicate Balanced(leg: Leg) {
    leg.movement.Some? ==>
      leg.opening.Some? && leg.ending.Some? && leg.opening.value + leg.movement.value == leg.ending.value
  }

  ghost predicate Chained(legs: seq<Leg>) {
    (forall i :: 0 <= i < |legs| ==> Balanced(legs[i])) &&
    forall i :: 0 < i < |legs| ==> legs[i].opening == legs[i - 1].ending
  }

  /** The debt bridge balances, and is defined exactly when none of its four inputs is missing. */
  lemma DebtBridgeBalances(previous: Option<Row>, r: Row)
    ensures var s := SnapshotOf(previous, r);
            && Balanced(DebtLeg(s))
            && (DebtLeg(s).movement.Some? <==>
                previous.Some? && TotalDebt(previous.value).Some? && TotalDebt(r).Some? &&
                Number(r, "debt_issuance").Some? && Number(r, "debt_repayment").Some?)
  {
    hide LadderOf, InterestOf, ReturnsOf, DilutionOf, Average, SectionMeta, MissingFlags;
  }

  /**
   The share bridge balances, and is defined exactly when both counts are known and issued shares are reported or can
   be taken from the diluted average.
   */
  lemma ShareBridgeBalances(previous: Option<Row>, r: Row)
    ensures var s := SnapshotOf(previous, r);
            && Balanced(ShareLeg(s))
            && (ShareLeg(s).movement.Some? <==>
                previous.Some? && Shares(previous.value).Some? && Shares(r).Some? &&
                (Number(r, "shares_issued").Some? || Number(r, "weighted_average_diluted_shares").Some?))
  {
    hide LadderOf, InterestOf, ReturnsOf, DebtOf, Average, SectionMeta, MissingFlags;
  }

  // ----- from the reported numbers -----

  /** What a statement reports, an absent number counting as nothing. */
  function Reported(r: Row, key: string): real {
    if key in r.numbers then r.numbers[key] else 0.0
  }

  predicate Reports(r: Row, key: string) {
    key in r.numbers
  }

  function Size(x: real): real {
    if x < 0.0 then -x else x
  }

  predicate ReportsDebt(r: Row) {
    Reports(r, "current_debt") || Reports(r, "long_term_debt")
  }

  /** The rise in current and long-term debt from one statement to the next. */
  function DebtRise(p: Row, r: Row): real {
    Reported(r, "current_debt") + Reported(r, "long_term_debt") -
    (Reported(p, "current_debt") + Reported(p, "long_term_debt"))
  }

  /** What the statement says was borrowed, less what it says was paid back. */
  function NetBorrowing(r: Row): real {
    Size(Reported(r, "debt_issuance")) - Size(Reported(r, "debt_repayment"))
  }

  /**
   The debt section from the statements' numbers: the unexplained change is the rise in debt less the net borrowing, so
   it is nothing exactly when the two agree; the net change is the reported one, else the net borrowing.
   */
  lemma DebtMovesAsReported(p: Row, r: Row)
    ensures var d := DebtOf(Some(p), r);
            && (d.unexplained.Some? <==>
                ReportsDebt(p) && ReportsDebt(r) && Reports(r, "debt_issuance") && Reports(r, "debt_repayment"))
            && (d.unexplained.Some? ==> d.unexplained.value == DebtRise(p, r) - NetBorrowing(r))
            && (d.unexplained == Some(0.0) <==> d.unexplained.Some? && DebtRise(p, r) == NetBorrowing(r))
            && (Reports(r, "debt_changes") ==> d.netChange == Some(Reported(r, "debt_changes")))
            && (!Reports(r, "debt_changes") ==>
                d.netChange ==
                if Reports(r, "debt_issuance") && Reports(r, "debt_repayment") then Some(NetBorrowing(r)) else None)
    ensures var d := DebtOf(Some(p), r);
            && d.issued == (if Reports(r, "debt_issuance") then Some(Size(Reported(r, "debt_issuance"))) else None)
            && d.repaid == (if Reports(r, "debt_repayment") then Some(Size(Reported(r, "debt_repayment"))) else None)
  {
    hide SectionMeta, MissingFlags, Present;
  }

  /** Shares issued as far as the statement tells: reported, or the excess of the diluted average over the count. */
  function IssuedAsTold(r: Row): real {
    var excess := Reported(r, "weighted_average_diluted_shares") - Reported(r, "shares_outstanding");
    if Reports(r, "shares_issued") then Size(Reported(r, "shares_issued")) else if excess < 0.0 then 0.0 else excess
  }

  function ShareRise(p: Row, r: Row): real {
    Reported(r, "shares_outstanding") - Reported(p, "shares_outstanding")
  }

  /**
   The share bridge from the statements' numbers: the other change is the rise in shares less what was issued and plus
   what was bought back, and the net change and ratio are those of the rise.
   */
  lemma SharesMoveAsReported(p: Row, r: Row)
    ensures var b := DilutionOf(Some(p), r);
            var counted := Reports(p, "shares_outstanding") && Reports(r, "shares_outstanding");
            && (b.other.Some? <==>
                counted && (Reports(r, "shares_issued") || Reports(r, "weighted_average_diluted_shares")))
            && (b.other.Some? ==>
                b.other.value == ShareRise(p, r) - (IssuedAsTold(r) - Size(Reported(r, "shares_repurchased"))))
            && b.netChange == (if counted then Some(ShareRise(p, r)) else None)
            && IsRatio(b.netRatio, b.netChange, Number(p, "shares_outstanding"))
  {
    hide SectionMeta, MissingFlags, Present, SafeDivide, IsRatio;
    DivideInverts(DilutionOf(Some(p), r).netChange, Number(p, "shares_outstanding"));
  }

  function Movements(legs: seq<Leg>, i: nat, j: nat): real
    requires i <= j <= |legs|
  {
    if i == j then 0.0 else Movements(legs, i, j - 1) + legs[j - 1].movement.GetOr(0.0)
  }

  /** Over any contiguous defined stretch, last ending = first opening + the sum of the movements. */
  lemma {:induction false} Telescopes(legs: seq<Leg>, i: nat, j: nat)
    requires Chained(legs) && i < j <= |legs| && forall k :: i <= k < j ==> legs[k].movement.Some?
    ensures legs[i].opening.Some? && legs[j - 1].ending.Some?
    ensures legs[j - 1].ending.value == legs[i].opening.value + Movements(legs, i, j)
  {
    assert Balanced(legs[j - 1]);
    if i + 1 < j { Telescopes(legs, i, j - 1); } else { assert Movements(legs, i, i) == 0.0; }
  }

  function Legs(snapshots: seq<Snapshot>, leg: Snapshot -> Leg): (r: seq<Leg>)
    ensures |r| == |snapshots| && forall i :: 0 <= i < |r| ==> r[i] == leg(snapshots[i])
  {
    seq(|snapshots|, i requires 0 <= i < |snapshots| => leg(snapshots[i]))
  }

  /** Roll-forward conservation: for any series of rows both bridges are balanced and chained. */
  lemma BridgesAreChained(rows: seq<Row>)
    ensures Chained(Legs(Snapshots(rows), DebtLeg))
    ensures Chained(Legs(Snapshots(rows), ShareLeg))
  {
    hide SnapshotOf, DebtLeg, ShareLeg;
    forall i | 0 <= i < |rows|
      ensures Balanced(Legs(Snapshots(rows), DebtLeg)[i]) && Balanced(Legs(Snapshots(rows), ShareLeg)[i])
    {
      DebtBridgeBalances(PreviousRow(rows, i), rows[i]);
      ShareBridgeBalances(PreviousRow(rows, i), rows[i]);
    }
    forall i | 0 < i < |rows|
      ensures Legs(Snapshots(rows), DebtLeg)[i].opening == Legs(Snapshots(rows), DebtLeg)[i - 1].ending
      ensures Legs(Snapshots(rows), ShareLeg)[i].opening == Legs(Snapshots(rows), ShareLeg)[i - 1].ending
    {
      OpensWithPreviousEnding(rows, i);
      LegEnds(Snapshots(rows)[i]);
      LegEnds(Snapshots(rows)[i - 1]);
    }
  }

  lemma LegEnds(s: Snapshot)
    ensures DebtLeg(s).opening == s.debt.opening && DebtLeg(s).ending == s.debt.ending
    ensures ShareLeg(s).opening == s.dilution.opening && ShareLeg(s).ending == s.dilution.ending
  {
  }

  /** Debt over any contiguous stretch with a defined bridge. */
  lemma DebtTelescopes(rows: seq<Row>, i: nat, j: nat)
    requires i < j <= |rows| && forall k :: i <= k < j ==> Snapshots(rows)[k].debt.unexplained.Some?
    ensures Snapshots(rows)[i].debt.opening.Some? && Snapshots(rows)[j - 1].debt.ending.Some?
    ensures Snapshots(rows)[j - 1].debt.ending.value ==
            Snapshots(rows)[i].debt.opening.value + Movements(Legs(Snapshots(rows), DebtLeg), i, j)
  {
    var legs := Legs(Snapshots(rows), DebtLeg);
    BridgesAreChained(rows);
    forall k | i <= k < j ensures legs[k].movement.Some? { DefinedLegs(PreviousRow(rows, k), rows[k]); }
    Telescopes(legs, i, j);
  }

  /** Shares over any contiguous stretch with a defined bridge. */
  lemma SharesTelescope(rows: seq<Row>, i: nat, j: nat)
    requires i < j <= |rows| && forall k :: i <= k < j ==> Snapshots(rows)[k].dilution.other.Some?
    ensures Snapshots(rows)[i].dilution.opening.Some? && Snapshots(rows)[j - 1].dilution.ending.Some?
    ensures Snapshots(rows)[j - 1].dilution.ending.value ==
            Snapshots(rows)[i].dilution.opening.value + Movements(Legs(Snapshots(rows), ShareLeg), i, j)
  {
    var legs := Legs(Snapshots(rows), ShareLeg);
    BridgesAreChained(rows);
    forall k | i <= k < j ensures legs[k].movement.Some? { DefinedLegs(PreviousRow(rows, k), rows[k]); }
    Telescopes(legs, i, j);
  }

  lemma DefinedLegs(previous: Option<Row>, r: Row)
    ensures SnapshotOf(previous, r).debt.unexplained.Some? ==> DebtLeg(SnapshotOf(previous, r)).movement.Some?
    ensures SnapshotOf(previous, r).dilution.other.Some? ==> ShareLeg(SnapshotOf(previous, r)).movement.Some?
  {
    hide LadderOf, InterestOf, ReturnsOf, Average, SectionMeta, MissingFlags;
  }

  // ----- flags and confidence -----

  lemma {:induction false} MissingNamesMeaning(names: seq<string>, values: seq<Amount>, name: string)
    requires |names| == |values|
    ensures name in MissingNames(names, values) <==> exists i :: 0 <= i < |names| && names[i] == name && values[i].None?
  {
    if names != [] {
      MissingNamesMeaning(names[1..], values[1..], name);
      if i :| 0 <= i < |names| && names[i] == name && values[i].None? {
        if i > 0 { assert names[1..][i - 1] == name && values[1..][i - 1].None?; }
      }
    }
  }

  lemma NoFlagsMeansNothingMissing(prefix: string, names: seq<string>, values: seq<Amount>)
    requires |names| == |values|
    ensures MissingFlags(prefix, names, values) == {} <==> forall v :: v in values ==> v.Some?
  {
    var missing := MissingNames(names, values);
    if v :| v in values && v.None? {
      var i :| 0 <= i < |values| && values[i] == v;
      MissingNamesMeaning(names, values, names[i]);
      assert names[i] in missing;
    }
    if missing != [] {
      MissingNamesMeaning(names, values, missing[0]);
      assert prefix + "_missing" in {prefix + "_missing"} && prefix + "_partial" in {prefix + "_partial"};
    }
  }

  /** The flags of a section: one when everything is missing, none when nothing is, and else one more for each gap. */
  lemma MissingFlagsMeaning(prefix: string, names: seq<string>, values: seq<Amount>)
    requires |names| == |values| && names != []
    ensures (forall v :: v in values ==> v.None?) ==> MissingFlags(prefix, names, values) == {prefix + "_missing"}
    ensures (exists v :: v in values && v.None?) && (exists v :: v in values && v.Some?) ==>
              MissingFlags(prefix, names, values) == {prefix + "_partial"} + GapFlags(prefix, names, values)
  {
    var missing := MissingNames(names, values);
    MissingCount(names, values);
    forall n ensures n in missing <==> exists i :: 0 <= i < |names| && names[i] == n && values[i].None? {
      MissingNamesMeaning(names, values, n);
    }
    if v :| v in values && v.None? {
      var i :| 0 <= i < |values| && values[i] == v;
      assert names[i] in missing;
    }
    if forall v :: v in values ==> v.None? {
      assert values[0] in values;
      assert names[0] in missing;
    }
    forall f ensures f in GapFlags(prefix, names, values) <==>
                     f in set n | n in missing :: prefix + "_" + n + "_missing"
    {
    }
  }

  /** One flag for each missing value. */
  function GapFlags(prefix: string, names: seq<string>, values: seq<Amount>): set<string>
    requires |names| == |values|
  {
    set i | 0 <= i < |names| && values[i].None? :: prefix + "_" + names[i] + "_missing"
  }

  lemma {:induction false} MissingCount(names: seq<string>, values: seq<Amount>)
    requires |names| == |values|
    ensures |MissingNames(names, values)| <= |names|
    ensures |MissingNames(names, values)| == |names| <==> forall v :: v in values ==> v.None?
  {
    if names != [] {
      MissingCount(names[1..], values[1..]);
      assert forall v :: v in values <==> v == values[0] || v in values[1..];
    }
  }

  /** A value a section looks for, under the name its flags give it. */
  datatype Gap = Gap(name: string, value: Amount)

  function SectionFlags(prefix: string, gaps: seq<Gap>): set<string> {
    if forall g :: g in gaps ==> g.value.None? then {prefix + "_missing"}
    else if forall g :: g in gaps ==> g.value.Some? then {}
    else {prefix + "_partial"} + set g | g in gaps && g.value.None? :: prefix + "_" + g.name + "_missing"
  }

  lemma FlagsByGaps(prefix: string, names: seq<string>, values: seq<Amount>, gaps: seq<Gap>)
    requires |names| == |values| == |gaps| && names != []
    requires forall i :: 0 <= i < |gaps| ==> gaps[i] == Gap(names[i], values[i])
    ensures MissingFlags(prefix, names, values) == SectionFlags(prefix, gaps)
  {
    hide MissingFlags;
    MissingFlagsMeaning(prefix, names, values);
    NoFlagsMeansNothingMissing(prefix, names, values);
    forall i | 0 <= i < |gaps| ensures gaps[i] in gaps && values[i] in values && gaps[i].value == values[i] {
    }
    assert (forall v :: v in values ==> v.None?) <==> forall g :: g in gaps ==> g.value.None?;
    assert (forall v :: v in values ==> v.Some?) <==> forall g :: g in gaps ==> g.value.Some?;
    assert GapFlags(prefix, names, values) ==
           set g | g in gaps && g.value.None? :: prefix + "_" + g.name + "_missing";
  }

  function Known(x: Amount): int {
    if x.Some? then 1 else 0
  }

  /** Every section flags its own gaps under their own names. */
  lemma SectionsFlagTheirGaps(previous: Option<Row>, r: Row)
    ensures var d := DebtOf(previous, r);
            d.meta.flags ==
            SectionFlags("debt_rollforward", [Gap("opening_total_debt", d.opening), Gap("ending_total_debt", d.ending),
                                              Gap("debt_issued", d.issued), Gap("debt_repaid", d.repaid)])
    ensures var i := InterestOf(previous, r);
            i.meta.flags ==
            SectionFlags("interest_burden", [Gap("interest_expense", i.expense), Gap("average_debt", i.averageDebt),
                                             Gap("interest_to_average_debt", i.toAverageDebt)])
    ensures var p := ReturnsOf(r);
            p.meta.flags ==
            SectionFlags("capital_returns", [Gap("dividends", p.dividends), Gap("share_repurchases", p.repurchases),
                                             Gap("stock_based_compensation", p.stockCompensation)])
    ensures var b := DilutionOf(previous, r);
            b.meta.flags ==
            (if b.issued.None? && b.issuedProxy.Some? then {"net_dilution_bridge_shares_issued_proxy"} else {}) +
            SectionFlags("net_dilution_bridge", [Gap("opening_shares", b.opening), Gap("ending_shares", b.ending),
                                                 Gap("weighted_average_diluted_shares", b.dilutedAverage)])
  {
    hide MissingFlags, SectionFlags, Present, Average, Abs, Number, TotalDebt, SafeDivide, SumNonNull;
    var (d, i, p, b) := (DebtOf(previous, r), InterestOf(previous, r), ReturnsOf(r), DilutionOf(previous, r));
    FlagsByGaps("debt_rollforward", ["opening_total_debt", "ending_total_debt", "debt_issued", "debt_repaid"],
                [d.opening, d.ending, d.issued, d.repaid],
                [Gap("opening_total_debt", d.opening), Gap("ending_total_debt", d.ending), Gap("debt_issued", d.issued),
                 Gap("debt_repaid", d.repaid)]);
    FlagsByGaps("interest_burden", ["interest_expense", "average_debt", "interest_to_average_debt"],
                [i.expense, i.averageDebt, i.toAverageDebt],
                [Gap("interest_expense", i.expense), Gap("average_debt", i.averageDebt),
                 Gap("interest_to_average_debt", i.toAverageDebt)]);
    FlagsByGaps("capital_returns", ["dividends", "share_repurchases", "stock_based_compensation"],
                [p.dividends, p.repurchases, p.stockCompensation],
                [Gap("dividends", p.dividends), Gap("share_repurchases", p.repurchases),
                 Gap("stock_based_compensation", p.stockCompensation)]);
    FlagsByGaps("net_dilution_bridge", ["opening_shares", "ending_shares", "weighted_average_diluted_shares"],
                [b.opening, b.ending, b.dilutedAverage],
                [Gap("opening_shares", b.opening), Gap("ending_shares", b.ending),
                 Gap("weighted_average_diluted_shares", b.dilutedAverage)]);
  }

  lemma KnownOfFour(a: Amount, b: Amount, c: Amount, d: Amount)
    ensures Present([a, b, c, d]).0 == Known(a) + Known(b) + Known(c) + Known(d)
    ensures Present([a, b, c]).0 == Known(a) + Known(b) + Known(c)
  {
    hide Present;
    PresentCons(a, [b, c, d]);
    PresentCons(b, [c, d]);
    PresentCons(c, [d]);
    PresentCons(d, []);
    PresentCons(a, [b, c]);
    PresentCons(b, [c]);
    PresentCons(c, []);
    assert [a] + [b, c, d] == [a, b, c, d];
    assert [b] + [c, d] == [b, c, d];
    assert [c] + [d] == [c, d];
    assert [d] + [] == [d];
    assert [a] + [b, c] == [a, b, c];
    assert [b] + [c] == [b, c];
    assert [c] + [] == [c];
    assert Present([]).0 == 0;
  }

  /** A section's confidence is the share of its values that are known: of four, or of the three payouts. */
  lemma ConfidenceIsShareKnown(previous: Option<Row>, r: Row)
    ensures var d := DebtOf(previous, r);
            4.0 * d.meta.confidence == (Known(d.opening) + Known(d.ending) + Known(d.issued) + Known(d.repaid)) as real
    ensures var i := InterestOf(previous, r);
            4.0 * i.meta.confidence ==
            (Known(i.expense) + Known(i.averageDebt) + Known(i.toAverageDebt) + Known(i.coverage)) as real
    ensures var p := ReturnsOf(r);
            3.0 * p.meta.confidence ==
            (Known(p.dividends) + Known(p.repurchases) + Known(p.stockCompensation)) as real
    ensures var b := DilutionOf(previous, r);
            4.0 * b.meta.confidence ==
            (Known(b.opening) + Known(b.ending) + Known(b.dilutedAverage) + Known(EffectiveIssued(b))) as real
  {
    hide MissingFlags, Present, Average, Abs, Number, TotalDebt, SafeDivide, SumNonNull;
    var (d, i, p, b) := (DebtOf(previous, r), InterestOf(previous, r), ReturnsOf(r), DilutionOf(previous, r));
    KnownOfFour(d.opening, d.ending, d.issued, d.repaid);
    KnownOfFour(i.expense, i.averageDebt, i.toAverageDebt, i.coverage);
    KnownOfFour(p.dividends, p.repurchases, p.stockCompensation, None);
    KnownOfFour(b.opening, b.ending, b.dilutedAverage, EffectiveIssued(b));
  }

  /** The roll-forward section carries no flag, and has full confidence, exactly when its bridge is defined. */
  lemma DebtFlagsAreExact(previous: Option<Row>, r: Row)
    ensures var d := DebtOf(previous, r);
            && (d.meta.flags == {} <==> d.unexplained.Some?)
            && (d.meta.confidence == 1.0 <==> d.unexplained.Some?)
  {
    var d := DebtOf(previous, r);
    var values := [d.opening, d.ending, d.issued, d.repaid];
    var names := ["opening_total_debt", "ending_total_debt", "debt_issued", "debt_repaid"];
    NoFlagsMeansNothingMissing("debt_rollforward", names, values);
    FourPresent(d.opening, d.ending, d.issued, d.repaid);
    assert forall v :: v in values <==> v == d.opening || v == d.ending || v == d.issued || v == d.repaid;
  }

  lemma PresentCons(x: Amount, xs: seq<Amount>)
    ensures Present([x] + xs).0 == (if x.Some? then 1 else 0) + Present(xs).0
  {
    assert ([x] + xs)[1..] == xs;
  }

  lemma FourPresent(a: Amount, b: Amount, c: Amount, d: Amount)
    ensures Present([a, b, c, d]).0 == 4 <==> a.Some? && b.Some? && c.Some? && d.Some?
  {
    hide Present;
    PresentCons(a, [b, c, d]);
    PresentCons(b, [c, d]);
    PresentCons(c, [d]);
    PresentCons(d, []);
    assert [a] + [b, c, d] == [a, b, c, d];
    assert [b] + [c, d] == [b, c, d];
    assert [c] + [d] == [c, d];
    assert [d] + [] == [d];
    assert Present([]).0 == 0;
  }

  lemma {:induction false} PresentBounds(xs: seq<Amount>)
    requires forall x :: x in xs && x.Some? ==> 0.0 <= x.value <= 1.0
    ensures 0.0 <= Present(xs).1 <= Present(xs).0 as real
  {
    if xs != [] {
      assert xs[0] in xs && forall x :: x in xs[1..] ==> x in xs;
      PresentBounds(xs[1..]);
    }
  }

  lemma AverageBounds(xs: seq<Amount>)
    requires forall x :: x in xs && x.Some? ==> 0.0 <= x.value <= 1.0
    ensures Average(xs).Some? ==> 0.0 <= Average(xs).value <= 1.0
  {
    PresentBounds(xs);
    var (n, total) := Present(xs);
    if n > 0 { RatioBounds(total, n as real); }
  }

  lemma RatioBounds(a: real, b: real)
    requires 0.0 <= a <= b && b > 0.0
    ensures 0.0 <= a / b <= 1.0
  {
  }

  /** Every snapshot has an overall confidence between 0 and 1. */
  lemma ConfidenceIsAFraction(previous: Option<Row>, r: Row)
    ensures SnapshotOf(previous, r).confidence.Some? && 0.0 <= SnapshotOf(previous, r).confidence.value <= 1.0
  {
    hide LadderOf, InterestOf, ReturnsOf, DebtOf, DilutionOf, Average;
    var debts := LadderOf(r, "debt_maturity_ladder", DEBT_BUCKETS);
    var leases := LadderOf(r, "lease_obligations", LEASE_BUCKETS);
    OverallIsAFraction([debts.meta, leases.meta, DebtOf(previous, r).meta, InterestOf(previous, r).meta,
                        ReturnsOf(r).meta, DilutionOf(previous, r).meta]);
  }

  lemma OverallIsAFraction(metas: seq<Meta>)
    requires metas != []
    ensures Overall(metas).Some? && 0.0 <= Overall(metas).value <= 1.0
  {
    hide Average;
    var scores: seq<Amount> := seq(|metas|, i requires 0 <= i < |metas| => Some(metas[i].confidence));
    forall x | x in scores && x.Some? ensures 0.0 <= x.value <= 1.0 {
      var i :| 0 <= i < |scores| && scores[i] == x;
      assert scores[i] == Some(metas[i].confidence);
    }
    assert scores[0] in scores;
    AverageBounds(scores);
  }

  /** When both payouts are reported and not both zero, their shares of the gross payout add up to one. */
  lemma PayoutMixAddsUp(r: Row)
    ensures var p := ReturnsOf(r);
            p.dividends.Some? && p.repurchases.Some? && (p.dividends.value != 0.0 || p.repurchases.value != 0.0) ==>
              p.dividendShare.Some? && p.repurchaseShare.Some? && p.dividendShare.value + p.repurchaseShare.value == 1.0
  {
    hide SectionMeta, MissingFlags;
    var p := ReturnsOf(r);
    if p.dividends.Some? && p.repurchases.Some? && (p.dividends.value != 0.0 || p.repurchases.value != 0.0) {
      SharesOfSum(p.dividends.value, p.repurchases.value);
    }
  }

  lemma SharesOfSum(a: real, b: real)
    requires a + b != 0.0
    ensures a / (a + b) + b / (a + b) == 1.0
  {
  }

  // ----- ladders and interest -----

  lemma {:induction false} BucketsMeaning(r: Row, keys: seq<string>, key: string)
    requires Distinct(keys)
    ensures BucketAmount(BucketRows(r, keys), key) == if key in keys then Abs(Number(r, key)) else None
    ensures |BucketRows(r, keys)| <= |keys|
    ensures |BucketRows(r, keys)| == |keys| <==> forall k :: k in keys ==> Number(r, k).Some?
    ensures BucketRows(r, keys) == [] <==> forall k :: k in keys ==> Number(r, k).None?
  {
    if keys != [] {
      BucketsMeaning(r, keys[1..], key);
      var rest := BucketRows(r, keys[1..]);
      assert keys == [keys[0]] + keys[1..];
      if Number(r, keys[0]).Some? {
        assert ([Bucket(keys[0], Abs(Number(r, keys[0])).value)] + rest)[1..] == rest;
      } else {
        assert [] + rest == rest;
      }
    }
  }

  /** A ladder shows every reported bucket once, with its absolute amount, and is unflagged and fully confident exactly
      when none is missing. */
  lemma LadderMeaning(r: Row, section: string, keys: seq<string>, key: string)
    requires Distinct(keys) && keys != [] && key in keys
    ensures var ladder := LadderOf(r, section, keys);
      && BucketAmount(ladder.buckets, key) == Abs(Number(r, key))
      && (ladder.meta.flags == {} <==> forall k :: k in keys ==> Number(r, k).Some?)
      && (ladder.meta.confidence == 1.0 <==> forall k :: k in keys ==> Number(r, k).Some?)
  {
    hide BucketRows, BucketAmount, Abs, Number;
    BucketsMeaning(r, keys, key);
    var n, total := |BucketRows(r, keys)|, |keys|;
    ShareOfTotal(n, total);
    assert section + "_missing" in {section + "_missing"} && section + "_partial" in {section + "_partial"};
  }

  lemma ShareOfTotal(n: nat, total: nat)
    requires n <= total && total > 0
    ensures n as real / total as real <= 1.0
    ensures n as real / total as real == 1.0 <==> n == total
  {
    assert n as real / total as real * total as real == n as real;
  }

  /** `ratio` is `a` over `b`, and is there exactly when both are and `b` is not nothing. */
  predicate IsRatio(ratio: Amount, a: Amount, b: Amount) {
    (ratio.Some? <==> a.Some? && b.Some? && b.value != 0.0) &&
    (ratio.Some? ==> ratio.value * b.value == a.value)
  }

  function SizeReported(r: Row, key: string): Amount {
    if Reports(r, key) then Some(Size(Reported(r, key))) else None
  }

  /** Each interest ratio undoes its division, of the reported numbers, and is there exactly when the division is. */
  lemma InterestRatiosInvert(previous: Option<Row>, r: Row)
    ensures var i := InterestOf(previous, r);
            && i.expense == SizeReported(r, "interest_expense")
            && IsRatio(i.toAverageDebt, i.expense, i.averageDebt)
            && IsRatio(i.toRevenue, i.expense, Number(r, "revenue"))
            && IsRatio(i.toOperatingCashFlow, i.expense, SizeReported(r, "operating_cash_flow"))
            && IsRatio(i.coverage, Number(r, "operating_income"), i.expense)
  {
    hide SectionMeta, MissingFlags, Average, SafeDivide, TotalDebt;
    var i := InterestOf(previous, r);
    DivideInverts(i.expense, i.averageDebt);
    DivideInverts(i.expense, Number(r, "revenue"));
    DivideInverts(i.expense, SizeReported(r, "operating_cash_flow"));
    DivideInverts(Number(r, "operating_income"), i.expense);
  }

  /** Payouts from the reported numbers: gross and net amounts, and the three shares of the mix. */
  lemma PayoutsAsReported(r: Row)
    ensures var p := ReturnsOf(r);
            var (dividends, buybacks, paidInStock) :=
              (SizeReported(r, "dividends"), SizeReported(r, "share_buybacks"),
               SizeReported(r, "stock_based_compensation"));
            && p.dividends == dividends && p.repurchases == buybacks && p.stockCompensation == paidInStock
            && (p.grossPayout.Some? <==> dividends.Some? || buybacks.Some?)
            && (p.grossPayout.Some? ==> p.grossPayout.value == dividends.GetOr(0.0) + buybacks.GetOr(0.0))
            && (p.netPayout.Some? <==> p.grossPayout.Some? || paidInStock.Some?)
            && (p.netPayout.Some? ==> p.netPayout.value == p.grossPayout.GetOr(0.0) - paidInStock.GetOr(0.0))
            && IsRatio(p.dividendShare, dividends, p.grossPayout)
            && IsRatio(p.repurchaseShare, buybacks, p.grossPayout)
            && IsRatio(p.compensationOffset, paidInStock, SumNonNull(p.grossPayout, paidInStock))
  {
    hide SectionMeta, MissingFlags, SafeDivide;
    var p := ReturnsOf(r);
    DivideInverts(p.dividends, p.grossPayout);
    DivideInverts(p.repurchases, p.grossPayout);
    DivideInverts(p.stockCompensation, SumNonNull(p.grossPayout, p.stockCompensation));
  }

  /** A snapshot's summary shows the figures of its sections. */
  lemma SummaryGathers(previous: Option<Row>, r: Row)
    ensures var s := SnapshotOf(previous, r);
            s.summary == Summary(s.debt.ending, Number(r, "lease_liabilities"), SizeReported(r, "interest_expense"),
                                 SizeReported(r, "debt_maturity_due_next_twelve_months"),
                                 SizeReported(r, "lease_due_next_twelve_months"), s.payouts.grossPayout,
                                 s.payouts.netPayout, s.dilution.netChange, s.dilution.netRatio)
  {
    hide DebtOf, ReturnsOf, DilutionOf, LadderOf, InterestOf, Overall, BucketAmount, Abs;
    ShowsBucket(r, "debt_maturity_ladder", DEBT_BUCKETS, 0);
    ShowsBucket(r, "lease_obligations", LEASE_BUCKETS, 0);
    InterestShown(previous, r);
  }

  lemma ShowsBucket(r: Row, section: string, keys: seq<string>, i: nat)
    requires i < |keys| && keys in {DEBT_BUCKETS, LEASE_BUCKETS}
    ensures BucketAmount(LadderOf(r, section, keys).buckets, keys[i]) == SizeReported(r, keys[i])
  {
    hide BucketRows, BucketAmount;
    BucketKeysDiffer();
    BucketsMeaning(r, keys, keys[i]);
  }

  lemma InterestShown(previous: Option<Row>, r: Row)
    ensures InterestOf(previous, r).expense == SizeReported(r, "interest_expense")
  {
    hide Average, SafeDivide, MissingFlags, Present, TotalDebt;
  }

  /** Every section is dated by the row's period end and last check. */
  lemma SectionsAreDated(previous: Option<Row>, r: Row, m: Meta)
    requires var s := SnapshotOf(previous, r);
             m in {s.debtLadder.meta, s.leases.meta, s.debt.meta, s.interest.meta, s.payouts.meta, s.dilution.meta}
    ensures m.asOf == r.periodEnd && m.refreshedAt == r.lastChecked
  {
    hide Average, MissingFlags, BucketFlags, BucketRows, BucketAmount, SafeDivide, Abs, Number, TotalDebt, Present,
      Overall;
  }

  /** Its quality flags are those of all six sections, and that of a restatement. */
  lemma FlagsGather(previous: Option<Row>, r: Row, f: string)
    ensures var s := SnapshotOf(previous, r);
            f in s.qualityFlags <==>
            (r.restated && f == "restatement_detected") || f in s.debtLadder.meta.flags || f in s.leases.meta.flags ||
            f in s.debt.meta.flags || f in s.interest.meta.flags || f in s.payouts.meta.flags ||
            f in s.dilution.meta.flags
  {
    hide DebtOf, ReturnsOf, DilutionOf, LadderOf, InterestOf, Overall, BucketAmount;
  }

  lemma BucketKeysDiffer()
    ensures Distinct(DEBT_BUCKETS) && Distinct(LEASE_BUCKETS)
  {
  }

  /** Overall confidence is the mean of the six sections'. */
  lemma OverallIsMean(previous: Option<Row>, r: Row)
    ensures var s := SnapshotOf(previous, r);
            s.confidence.Some? &&
            6.0 * s.confidence.value ==
            s.debtLadder.meta.confidence + s.leases.meta.confidence + s.debt.meta.confidence +
            s.interest.meta.confidence + s.payouts.meta.confidence + s.dilution.meta.confidence
  {
    hide DebtOf, ReturnsOf, DilutionOf, LadderOf, InterestOf, Average;
    var s := SnapshotOf(previous, r);
    MeanOfSix(s.debtLadder.meta, s.leases.meta, s.debt.meta, s.interest.meta, s.payouts.meta, s.dilution.meta);
  }

  lemma PresentValue(x: real, xs: seq<Amount>)
    ensures Present([Some(x)] + xs) == (Present(xs).0 + 1, Present(xs).1 + x)
  {
    assert ([Some(x)] + xs)[1..] == xs;
  }

  lemma NothingPresent()
    ensures Present([]) == (0, 0.0)
  {
  }

  lemma MeanOfSix(a: Meta, b: Meta, c: Meta, d: Meta, e: Meta, f: Meta)
    ensures Overall([a, b, c, d, e, f]).Some?
    ensures 6.0 * Overall([a, b, c, d, e, f]).value ==
            a.confidence + b.confidence + c.confidence + d.confidence + e.confidence + f.confidence
  {
    hide Present;
    var metas := [a, b, c, d, e, f];
    var t5: seq<Amount> := [Some(f.confidence)];
    var t4: seq<Amount> := [Some(e.confidence)] + t5;
    var t3: seq<Amount> := [Some(d.confidence)] + t4;
    var t2: seq<Amount> := [Some(c.confidence)] + t3;
    var t1: seq<Amount> := [Some(b.confidence)] + t2;
    var t0: seq<Amount> := [Some(a.confidence)] + t1;
    assert [Some(f.confidence)] + [] == t5;
    NothingPresent();
    PresentValue(f.confidence, []);
    PresentValue(e.confidence, t5);
    PresentValue(d.confidence, t4);
    PresentValue(c.confidence, t3);
    PresentValue(b.confidence, t2);
    PresentValue(a.confidence, t1);
    var scores: seq<Amount> := seq(|metas|, i requires 0 <= i < |metas| => Some(metas[i].confidence));
    assert scores == t0;
  }

  /** Average debt is the mean of the roll-forward's opening and ending debt, or the ending debt of a first row. */
  lemma AverageDebtMeaning(previous: Option<Row>, r: Row)
    ensures var (i, d) := (InterestOf(previous, r), DebtOf(previous, r));
      && (i.averageDebt.Some? <==> d.opening.Some? || d.ending.Some?)
      && (d.opening.Some? && d.ending.Some? ==> i.averageDebt.value * 2.0 == d.opening.value + d.ending.value)
      && (d.opening == None ==> i.averageDebt == d.ending)
  {
    hide SectionMeta, MissingFlags, Average, Abs, Number, SafeDivide, TotalDebt;
    AverageOfTwo(Carried(previous, TotalDebt), TotalDebt(r));
  }

  lemma AverageOfTwo(a: Amount, b: Amount)
    ensures Average([a, b]).Some? <==> a.Some? || b.Some?
    ensures a.Some? && b.Some? ==> Average([a, b]).value * 2.0 == a.value + b.value
  {
    assert [a, b][1..] == [b] && [b][1..] == [];
    assert a in [a, b] && b in [a, b];
    assert Present([]) == (0, 0.0);
    if a.Some? && b.Some? {
      assert Present([b]) == (1, b.value);
      assert Present([a, b]) == (2, b.value + a.value);
    }
  }

  lemma DivideInverts(a: Amount, b: Amount)
    ensures IsRatio(SafeDivide(a, b), a, b)
  {
  }
}
