// The reconciliation report (packages/mcp-tools/src/recon/status-repo.ts): settlements by how much of
// them is applied, records by status, and what is outstanding.

module ReconStatus {
  import opened Types
  import opened Sequences
  import opened Text
  import opened Ledger
  import opened FlowLaws
  import opened Sums
  import opened Decisions
  import opened Reconciliation

  // ------------------------------------------------------------------ settlements

  // A row of chain_events with its id and whether its token is verified.
  datatype ChainRow = ChainRow(id: nat, event: Event, verified: bool)

  // The instants of a period, end excluded (packages/ledger/src/scope-sql.ts:40-43).
  predicate InPeriod(time: int, period: Option<(int, int)>) {
    period.Some? ==> period.value.0 <= time < period.value.1
  }

  // status-repo.ts:132-143: exactly one endpoint in scope, a transfer, a positive amount, a verified
  // token, inside the period.
  function IsSettlement(addresses: set<string>, period: Option<(int, int)>): ChainRow -> bool {
    (r: ChainRow) => IsTransfer(r.event) && (r.event.from in addresses) != (r.event.to in addresses)
                     && r.event.amount > 0 && r.verified && InPeriod(r.event.time, period)
  }

  // The settlements of a period are the verified rows that the flow fold counts as coming in or going out
  // of the scope up to the last instant before the period's end, those of no value left out.
  lemma SettlementsAreExternal(r: ChainRow, addresses: set<string>, period: Option<(int, int)>)
    ensures var w := if period.None? then Window(None, None)
            else Window(Some(period.value.0), Some(period.value.1 - 1));
      IsSettlement(addresses, period)(r) <==>
        r.verified && r.event.amount > 0
        && (ComesIn(addresses, w, r.event.key.token)(r.event) || GoesOut(addresses, w, r.event.key.token)(r.event))
  {
  }

  // status-repo.ts:150.
  predicate HasConfirmedLeg(legs: map<nat, Leg>, tenant: nat, event: nat) { ConfirmedOf(legs, tenant, event) != {} }

  // status-repo.ts:180-183, the two conditions the report counts by, and what neither takes.
  ghost function IsUnmatched(legs: map<nat, Leg>, tenant: nat): ChainRow -> bool {
    (r: ChainRow) => !HasConfirmedLeg(legs, tenant, r.id)
  }

  ghost function IsPartlyApplied(legs: map<nat, Leg>, tenant: nat): ChainRow -> bool {
    (r: ChainRow) => HasConfirmedLeg(legs, tenant, r.id) && AppliedTo(legs, tenant, r.id) < r.event.amount
  }

  ghost function IsFullyApplied(legs: map<nat, Leg>, tenant: nat): ChainRow -> bool {
    (r: ChainRow) => AppliedTo(legs, tenant, r.id) == r.event.amount
  }

  ghost function Settlements(rows: seq<ChainRow>, addresses: set<string>, period: Option<(int, int)>): seq<ChainRow> {
    Filter(IsSettlement(addresses, period), rows)
  }

  // The rows of chain_events are the events that legs refer to.
  predicate RowsOf(rows: seq<ChainRow>, db: Tables) {
    forall i :: 0 <= i < |rows| ==> rows[i].id in db.events && db.events[rows[i].id] == rows[i].event.amount
  }

  // A confirmed leg applies something.
  lemma AppliedPositive(db: Tables, tenant: nat, event: nat)
    requires References(db)
    ensures AppliedTo(db.legs, tenant, event) >= 0
    ensures AppliedTo(db.legs, tenant, event) == 0 <==> !HasConfirmedLeg(db.legs, tenant, event)
  {
    SumOverNonNegative(ConfirmedOf(db.legs, tenant, event), Amounts(db.legs));
    if id :| id in ConfirmedOf(db.legs, tenant, event) { assert Amounts(db.legs)(id) > 0; }
  }

  // Every settlement is in exactly one of the classes, and the class says how much is applied.
  lemma ClassOf(db: Tables, tenant: nat, r: ChainRow)
    requires Consistent(db) && r.id in db.events && db.events[r.id] == r.event.amount > 0
    ensures IsUnmatched(db.legs, tenant)(r) <==> AppliedTo(db.legs, tenant, r.id) == 0
    ensures IsPartlyApplied(db.legs, tenant)(r) <==> 0 < AppliedTo(db.legs, tenant, r.id) < r.event.amount
    ensures !IsUnmatched(db.legs, tenant)(r) && !IsPartlyApplied(db.legs, tenant)(r)
            <==> IsFullyApplied(db.legs, tenant)(r)
  {
    AppliedPositive(db, tenant, r.id);
    assert AppliedTo(db.legs, tenant, r.id) <= db.events[r.id];
  }

  lemma {:induction false} ThreeWaySplit<T(!new)>(p: T -> bool, q: T -> bool, u: T -> bool, s: seq<T>)
    requires forall x :: x in s ==> (p(x) && !q(x) && !u(x)) || (!p(x) && q(x) && !u(x)) || (!p(x) && !q(x) && u(x))
    ensures |Filter(p, s)| + |Filter(q, s)| + |Filter(u, s)| == |s|
  {
    if s != [] {
      ThreeWaySplit(p, q, u, s[1..]);
      assert s[0] in s;
    }
  }

  // In any reachable state the report's two counts and the fully applied settlements add up to the
  // settlements in scope.
  lemma SettlementsSplit(s: State, steps: seq<Step>, tenant: nat, rows: seq<ChainRow>, addresses: set<string>,
                         period: Option<(int, int)>)
    requires Initial(s) && IsRun(s, steps) && RowsOf(rows, After(s, steps).db)
    ensures var legs, scope := After(s, steps).db.legs, Settlements(rows, addresses, period);
      |Filter(IsUnmatched(legs, tenant), scope)| + |Filter(IsPartlyApplied(legs, tenant), scope)|
      + |Filter(IsFullyApplied(legs, tenant), scope)| == |scope|
  {
    InitialInv(s);
    RunKeeps(s, steps);
    var db, scope := After(s, steps).db, Settlements(rows, addresses, period);
    FilterMembers(IsSettlement(addresses, period), rows);
    forall r | r in scope
      ensures IsUnmatched(db.legs, tenant)(r)
              ==> !IsPartlyApplied(db.legs, tenant)(r) && !IsFullyApplied(db.legs, tenant)(r)
      ensures IsPartlyApplied(db.legs, tenant)(r) ==> !IsFullyApplied(db.legs, tenant)(r)
      ensures IsUnmatched(db.legs, tenant)(r) || IsPartlyApplied(db.legs, tenant)(r)
              || IsFullyApplied(db.legs, tenant)(r)
    {
      assert IsSettlement(addresses, period)(r);
      var i :| 0 <= i < |rows| && rows[i] == r;
      ClassOf(db, tenant, r);
    }
    ThreeWaySplit(IsUnmatched(db.legs, tenant), IsPartlyApplied(db.legs, tenant), IsFullyApplied(db.legs, tenant),
                  scope);
  }

  lemma {:induction false} SumOverGrows(a: set<nat>, b: set<nat>, f: nat -> int, g: nat -> int)
    requires a <= b && (forall x :: x in a ==> f(x) == g(x)) && (forall x :: x in b ==> g(x) >= 0)
    ensures SumOver(a, f) <= SumOver(b, g)
    decreases |a|
  {
    if a == {} {
      SumOverNonNegative(b, g);
    } else {
      var x :| x in a;
      SumOverRemove(a, f, x);
      SumOverRemove(b, g, x);
      SumOverGrows(a - {x}, b - {x}, f, g);
    }
  }

  // Along any run what is applied to an event only grows: a settlement moves from unmatched through
  // partly to fully applied and never back.
  lemma SettlementsMoveForward(s: State, steps: seq<Step>, more: seq<Step>, tenant: nat, r: ChainRow)
    requires Initial(s) && IsRun(s, steps) && IsRun(After(s, steps), more)
    ensures var a, b := After(s, steps).db.legs, After(After(s, steps), more).db.legs;
      && AppliedTo(a, tenant, r.id) <= AppliedTo(b, tenant, r.id)
      && (IsUnmatched(b, tenant)(r) ==> IsUnmatched(a, tenant)(r))
      && (IsPartlyApplied(b, tenant)(r) ==> IsUnmatched(a, tenant)(r) || IsPartlyApplied(a, tenant)(r))
  {
    InitialInv(s);
    RunKeeps(s, steps);
    RunKeeps(After(s, steps), more);
    var a, b := After(s, steps).db.legs, After(After(s, steps), more).db.legs;
    forall id | id in ConfirmedOf(a, tenant, r.id) ensures id in ConfirmedOf(b, tenant, r.id) && a[id] == b[id] {
      assert Decided(a[id]);
    }
    SumOverGrows(ConfirmedOf(a, tenant, r.id), ConfirmedOf(b, tenant, r.id), Amounts(a), Amounts(b));
  }

  // ------------------------------------------------------------------ records

  // What a record still has open, or has been paid too much (status-repo.ts:89-115).
  ghost function Outstanding(db: Tables, r: nat): int
    requires r in db.records
  {
    db.records[r].amount - FiatOf(db.legs, db.records[r].tenant, r, db.records[r].currency)
  }

  lemma UndecidedUnpaid(db: Tables, r: nat)
    requires r in db.records && !HasDecision(db.legs, r)
    ensures FiatOf(db.legs, db.records[r].tenant, r, db.records[r].currency) == 0
  {
    assert Paying(db.legs, db.records[r].tenant, r, db.records[r].currency) == {};
  }

  // In any reachable state the report's open amounts are never negative and its overpayments always
  // positive, by more than a hundredth of the record.
  lemma ReportedAmounts(s: State, steps: seq<Step>, r: nat)
    requires Initial(s) && IsRun(s, steps) && r in After(s, steps).db.records
    ensures var db := After(s, steps).db;
      match db.records[r].status
      case Open => Outstanding(db, r) == db.records[r].amount
      case PartiallyMatched => 100 * Outstanding(db, r) > db.records[r].amount
      case Matched => 0 - db.records[r].amount <= 100 * Outstanding(db, r) <= db.records[r].amount
      case Overpaid => -100 * Outstanding(db, r) > db.records[r].amount
      case Void => true
  {
    StatusIsDerived(s, steps, r);
    var db := After(s, steps).db;
    var rec := db.records[r];
    if HasDecision(db.legs, r) {
      DeriveMeans(rec.amount, FiatOf(db.legs, rec.tenant, r, rec.currency));
    } else {
      UndecidedUnpaid(db, r);
    }
  }

  // ------------------------------------------------------------------ counts per status

  const CONTRACT_STATUSES: set<string> := {"open", "partially_matched", "matched", "overpaid", "void"}

  const ZERO_RECORD_COUNTS: map<string, nat> :=
    map["open" := 0, "partially_matched" := 0, "matched" := 0, "overpaid" := 0, "void" := 0]

  // The count of a status in the rows, the last one if there are several.
  function CountIn(rows: seq<(string, nat)>, status: string): nat {
    if rows == [] then 0
    else if rows[|rows| - 1].0 == status then rows[|rows| - 1].1
    else CountIn(rows[..|rows| - 1], status)
  }

  // status-repo.ts:213-226.
  method MapStatusCounts(rows: seq<(string, nat)>) returns (records: map<string, nat>)
    ensures records.Keys == CONTRACT_STATUSES
    ensures forall status :: status in records ==> records[status] == CountIn(rows, status)
  {
    records := ZERO_RECORD_COUNTS;
    for i := 0 to |rows|
      invariant records.Keys == CONTRACT_STATUSES
      invariant forall status :: status in records ==> records[status] == CountIn(rows[..i], status)
    {
      assert rows[..i + 1][..i] == rows[..i];
      if rows[i].0 in records { records := records[rows[i].0 := rows[i].1]; }
    }
    assert rows[..|rows|] == rows;
  }

  // `select status, count(*) ... group by status`.
  ghost predicate IsStatusGroupBy(rows: seq<(string, nat)>, statuses: seq<string>) {
    && (forall i, j :: 0 <= i < j < |rows| ==> rows[i].0 != rows[j].0)
    && (forall i :: 0 <= i < |rows| ==> rows[i].1 == multiset(statuses)[rows[i].0] > 0)
    && (forall status :: status in statuses ==> exists i :: 0 <= i < |rows| && rows[i].0 == status)
  }

  lemma {:induction false} CountInGroup(rows: seq<(string, nat)>, i: nat)
    requires i < |rows| && forall i, j :: 0 <= i < j < |rows| ==> rows[i].0 != rows[j].0
    ensures CountIn(rows, rows[i].0) == rows[i].1
  {
    if i < |rows| - 1 { CountInGroup(rows[..|rows| - 1], i); }
  }

  lemma {:induction false} CountInAbsent(rows: seq<(string, nat)>, status: string)
    requires forall i :: 0 <= i < |rows| ==> rows[i].0 != status
    ensures CountIn(rows, status) == 0
  {
    if rows != [] { CountInAbsent(rows[..|rows| - 1], status); }
  }

  // The five reported numbers are the numbers of records of each status, absent statuses included.
  lemma CountsPerStatus(rows: seq<(string, nat)>, statuses: seq<string>, status: string)
    requires IsStatusGroupBy(rows, statuses)
    ensures CountIn(rows, status) == multiset(statuses)[status]
  {
    if i :| 0 <= i < |rows| && rows[i].0 == status {
      CountInGroup(rows, i);
    } else {
      CountInAbsent(rows, status);
      assert status !in statuses;
    }
  }

  function FiveOf(count: string -> nat): nat {
    count("open") + count("partially_matched") + count("matched") + count("overpaid") + count("void")
  }

  lemma {:induction false} FiveOfStatuses(statuses: seq<string>)
    ensures var five := FiveOf((status: string) => multiset(statuses)[status]);
      five <= |statuses|
        && (five == |statuses| <==> forall status :: status in statuses ==> status in CONTRACT_STATUSES)
  {
    if statuses != [] {
      var n := |statuses| - 1;
      FiveOfStatuses(statuses[..n]);
      assert statuses == statuses[..n] + [statuses[n]];
      assert statuses[n] in statuses;
      assert forall status :: status in statuses <==> status in statuses[..n] || status == statuses[n];
    }
  }

  // The five reported numbers never exceed the records, and add up to them exactly when every record
  // has one of the five statuses, which the table's constraint demands.
  lemma CountsCoverRecords(rows: seq<(string, nat)>, statuses: seq<string>, records: map<string, nat>)
    requires IsStatusGroupBy(rows, statuses) && records.Keys == CONTRACT_STATUSES
    requires forall status :: status in records ==> records[status] == CountIn(rows, status)
    ensures var five := records["open"] + records["partially_matched"] + records["matched"] + records["overpaid"]
            + records["void"];
      five <= |statuses|
        && (five == |statuses| <==> forall status :: status in statuses ==> status in CONTRACT_STATUSES)
  {
    FiveOfStatuses(statuses);
    forall status | status in CONTRACT_STATUSES ensures records[status] == multiset(statuses)[status] {
      CountsPerStatus(rows, statuses, status);
    }
  }
}
