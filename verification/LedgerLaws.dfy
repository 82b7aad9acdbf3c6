// Laws between the folds of Ledger: decomposition, conservation, turnover and the two-aggregate
// form of the balance fold (packages/ledger/src/fold.ts:1-10, balances.ts:32-63).

module LedgerLaws {
  import opened Text
  import opened Types
  import opened Sequences
  import opened Ledger
  import opened Sums

  // ------------------------------------------------------------------ balances over a window

  function WindowBalance(events: seq<Event>, addr: string, token: Token, w: Window): int {
    if events == [] then 0
    else
      var e := events[|events| - 1];
      WindowBalance(events[..|events| - 1], addr, token, w) + (if InWindow(e, w) then Delta(e, addr, token) else 0)
  }

  lemma {:induction false} BalanceIsWindow(events: seq<Event>, addr: string, token: Token, asOf: Option<int>)
    ensures Balance(events, addr, token, asOf) == WindowBalance(events, addr, token, Window(None, asOf))
  {
    if events != [] { BalanceIsWindow(events[..|events| - 1], addr, token, asOf); }
  }

  // Gas is paid to the zero address and openings come from it.
  ghost predicate ZeroEnds(events: seq<Event>) {
    forall e :: e in events ==>
      (e.kind == GasFee ==> e.to == ZERO_ADDRESS) && (e.kind == OpeningBalance ==> e.from == ZERO_ADDRESS)
  }

  function Openings(events: seq<Event>, scope: set<string>, w: Window, token: Token): int {
    if events == [] then 0
    else
      var e := events[|events| - 1];
      Openings(events[..|events| - 1], scope, w, token)
      + (if e.kind == OpeningBalance && e.key.token == token && e.to in scope && InWindow(e, w) then e.amount else 0)
  }

  // What one event does to the whole scope.
  function ScopeDelta(e: Event, scope: set<string>, token: Token): int {
    (if e.key.token == token && e.to in scope then e.amount else 0)
    - (if e.key.token == token && e.from in scope then e.amount else 0)
  }

  lemma DeltaOverScope(e: Event, scope: set<string>, token: Token)
    ensures SumOver(scope, a => Delta(e, a, token)) == ScopeDelta(e, scope, token)
  {
    var to := (a: string) => if e.key.token == token && e.to == a then e.amount else 0;
    var from := (a: string) => if e.key.token == token && e.from == a then -e.amount else 0;
    SumOverAdd(scope, to, from, a => Delta(e, a, token));
    SumOverPoint(scope, to, e.to);
    SumOverPoint(scope, from, e.from);
  }

  // What one event adds to openings, inflow, outflow and gas, with its sign in the balance.
  function Parts(e: Event, scope: set<string>, w: Window, token: Token): int {
    if e.key.token != token || !InWindow(e, w) then 0
    else if e.kind == OpeningBalance then (if e.to in scope then e.amount else 0)
    else if e.kind == GasFee then (if e.from in scope then -e.amount else 0)
    else match SideOf(e, scope, w)
      case Inbound => e.amount
      case Outbound => -e.amount
      case _ => 0
  }

  lemma EventDecomposes(e: Event, scope: set<string>, w: Window, token: Token)
    requires ZERO_ADDRESS !in scope
    requires (e.kind == GasFee ==> e.to == ZERO_ADDRESS) && (e.kind == OpeningBalance ==> e.from == ZERO_ADDRESS)
    ensures Parts(e, scope, w, token) == if InWindow(e, w) then ScopeDelta(e, scope, token) else 0
  {
  }

  // Openings plus inflow less outflow less gas, as the four folds report them.
  function Reported(events: seq<Event>, scope: set<string>, w: Window, token: Token): int {
    Openings(events, scope, w, token)
    + ExternalFlow(events, scope, w, token).inflow - ExternalFlow(events, scope, w, token).outflow
    - GasSpent(events, scope, w, token)
  }

  lemma ReportedStep(events: seq<Event>, scope: set<string>, w: Window, token: Token)
    requires events != []
    ensures Reported(events, scope, w, token) ==
            Reported(events[..|events| - 1], scope, w, token) + Parts(events[|events| - 1], scope, w, token)
  {
  }

  lemma ScopeBalanceStep(events: seq<Event>, scope: set<string>, w: Window, token: Token)
    requires events != []
    ensures SumOver(scope, a => WindowBalance(events, a, token, w)) ==
            SumOver(scope, a => WindowBalance(events[..|events| - 1], a, token, w))
            + (if InWindow(events[|events| - 1], w) then ScopeDelta(events[|events| - 1], scope, token) else 0)
  {
    var init, e := events[..|events| - 1], events[|events| - 1];
    if InWindow(e, w) {
      SumOverAdd(scope, a => WindowBalance(init, a, token, w), a => Delta(e, a, token),
                 a => WindowBalance(events, a, token, w));
      DeltaOverScope(e, scope, token);
    } else {
      SumOverZero(scope, a => 0);
      SumOverAdd(scope, a => WindowBalance(init, a, token, w), a => 0, a => WindowBalance(events, a, token, w));
    }
  }

  // Over any window, what a scope gained is its openings plus what came in, less what went out and
  // the gas it paid; transfers between its own addresses cancel.
  lemma {:induction false} ScopeDecomposition(events: seq<Event>, scope: set<string>, w: Window, token: Token)
    requires ZeroEnds(events) && ZERO_ADDRESS !in scope
    ensures SumOver(scope, a => WindowBalance(events, a, token, w)) == Reported(events, scope, w, token)
  {
    if events == [] {
      SumOverZero(scope, a => WindowBalance(events, a, token, w));
    } else {
      var n := |events| - 1;
      assert events[n] in events;
      ScopeDecomposition(events[..n], scope, w, token);
      ScopeBalanceStep(events, scope, w, token);
      ReportedStep(events, scope, w, token);
      EventDecomposes(events[n], scope, w, token);
    }
  }

  // The cell of a balance fold, a token the address never touched being none of it.
  function FoldCell(m: Balances, token: Token): string -> int {
    (addr: string) => if At(m, addr, token).Some? then At(m, addr, token).value else 0
  }

  // What the balance fold returns: over the scope its cells of a token add up to what the other folds
  // report of it since the beginning.
  lemma FoldDecomposes(events: seq<Event>, scope: set<string>, asOf: Option<int>, token: Token, m: Balances)
    requires IsBalanceFold(m, events, scope, asOf) && ZeroEnds(events) && ZERO_ADDRESS !in scope
    ensures SumOver(scope, FoldCell(m, token)) == Reported(events, scope, Window(None, asOf), token)
  {
    forall addr | addr in scope
      ensures FoldCell(m, token)(addr) == WindowBalance(events, addr, token, Window(None, asOf))
    {
      BalanceIsWindow(events, addr, token, asOf);
      if At(m, addr, token).None? { UntouchedIsZero(events, addr, token, asOf); }
    }
    SumOverSame(scope, FoldCell(m, token), a => WindowBalance(events, a, token, Window(None, asOf)));
    ScopeDecomposition(events, scope, Window(None, asOf), token);
  }

  // balance(t2) - balance(t1) is the window's balance: what the folds report at two dates differs
  // by what the flow and gas folds report between them.
  lemma {:induction false} Conservation(events: seq<Event>, addr: string, token: Token, t1: int, t2: int)
    requires t1 <= t2
    ensures Balance(events, addr, token, Some(t2)) - Balance(events, addr, token, Some(t1))
         == WindowBalance(events, addr, token, Window(Some(t1 + 1), Some(t2)))
  {
    if events != [] { Conservation(events[..|events| - 1], addr, token, t1, t2); }
  }

  lemma {:induction false} BalanceConcat(a: seq<Event>, b: seq<Event>, addr: string, token: Token, asOf: Option<int>)
    ensures Balance(a + b, addr, token, asOf) == Balance(a, addr, token, asOf) + Balance(b, addr, token, asOf)
    decreases |b|
  {
    if b == [] {
      assert a + b == a;
    } else {
      var n := |b| - 1;
      assert (a + b)[..|a + b| - 1] == a + b[..n] && (a + b)[|a + b| - 1] == b[n];
      BalanceConcat(a, b[..n], addr, token, asOf);
    }
  }

  lemma BalanceRemoveAt(b: seq<Event>, i: nat, addr: string, token: Token, asOf: Option<int>)
    requires i < |b|
    ensures Balance(b, addr, token, asOf) ==
            Balance(RemoveAt(b, i), addr, token, asOf) + Balance([b[i]], addr, token, asOf)
  {
    BalanceConcat(b[..i], b[i + 1..], addr, token, asOf);
    BalanceConcat(b[..i], [b[i]] + b[i + 1..], addr, token, asOf);
    BalanceConcat([b[i]], b[i + 1..], addr, token, asOf);
    assert b == b[..i] + ([b[i]] + b[i + 1..]);
  }

  // The order in which rows are read does not matter.
  lemma {:induction false} BalancePermutation(a: seq<Event>, b: seq<Event>, addr: string, token: Token,
                                              asOf: Option<int>)
    requires multiset(a) == multiset(b)
    ensures Balance(a, addr, token, asOf) == Balance(b, addr, token, asOf)
    decreases |a|
  {
    PermutationFacts(a, b);
    if a != [] {
      var i := PositionIn(a, b, a[0]);
      RemoveAtMultiset(a, 0);
      RemoveAtMultiset(b, i);
      BalancePermutation(RemoveAt(a, 0), RemoveAt(b, i), addr, token, asOf);
      BalanceRemoveAt(a, 0, addr, token, asOf);
      BalanceRemoveAt(b, i, addr, token, asOf);
    }
  }

  lemma SingletonBalance(e: Event, addr: string, token: Token, asOf: Option<int>)
    ensures Balance([e], addr, token, asOf) == if NotAfter(e, asOf) then Delta(e, addr, token) else 0
  {
    assert [e][..0] == [];
    assert Balance([], addr, token, asOf) == 0;
  }

  // ------------------------------------------------------------------ counterparties

  function InflowOf(events: seq<Event>, scope: set<string>, w: Window, token: Token): string -> int {
    (cp: string) => CounterpartyFlow(events, scope, w, cp, token).inflow
  }

  function OutflowOf(events: seq<Event>, scope: set<string>, w: Window, token: Token): string -> int {
    (cp: string) => CounterpartyFlow(events, scope, w, cp, token).outflow
  }

  ghost predicate CounterpartiesIn(events: seq<Event>, scope: set<string>, w: Window, cps: set<string>) {
    forall e :: e in events && CounterpartyOf(e, scope, w).Some? ==> CounterpartyOf(e, scope, w).value in cps
  }

  lemma {:induction false} InflowSums(events: seq<Event>, scope: set<string>, w: Window, token: Token, cps: set<string>)
    requires CounterpartiesIn(events, scope, w, cps)
    ensures SumOver(cps, InflowOf(events, scope, w, token)) == ExternalFlow(events, scope, w, token).inflow
  {
    if events == [] {
      SumOverZero(cps, InflowOf(events, scope, w, token));
    } else {
      var init, e := events[..|events| - 1], events[|events| - 1];
      assert e in events;
      InflowSums(init, scope, w, token, cps);
      var step := (cp: string) =>
        if e.key.token == token && SideOf(e, scope, w) == Inbound && e.from == cp then e.amount else 0;
      SumOverAdd(cps, InflowOf(init, scope, w, token), step, InflowOf(events, scope, w, token));
      SumOverPoint(cps, step, e.from);
    }
  }

  lemma {:induction false} OutflowSums(events: seq<Event>, scope: set<string>, w: Window, token: Token,
                                       cps: set<string>)
    requires CounterpartiesIn(events, scope, w, cps)
    ensures SumOver(cps, OutflowOf(events, scope, w, token)) == ExternalFlow(events, scope, w, token).outflow
  {
    if events == [] {
      SumOverZero(cps, OutflowOf(events, scope, w, token));
    } else {
      var init, e := events[..|events| - 1], events[|events| - 1];
      assert e in events;
      OutflowSums(init, scope, w, token, cps);
      var step := (cp: string) =>
        if e.key.token == token && SideOf(e, scope, w) == Outbound && e.to == cp then e.amount else 0;
      SumOverAdd(cps, OutflowOf(init, scope, w, token), step, OutflowOf(events, scope, w, token));
      SumOverPoint(cps, step, e.to);
    }
  }

  // Turnover by counterparty sums to the external flow, both ways.
  lemma TurnoverSumsToFlow(events: seq<Event>, scope: set<string>, w: Window, token: Token, cps: set<string>)
    requires CounterpartiesIn(events, scope, w, cps)
    ensures SumOver(cps, InflowOf(events, scope, w, token)) == ExternalFlow(events, scope, w, token).inflow
    ensures SumOver(cps, OutflowOf(events, scope, w, token)) == ExternalFlow(events, scope, w, token).outflow
  {
    InflowSums(events, scope, w, token, cps);
    OutflowSums(events, scope, w, token, cps);
  }

  // ------------------------------------------------------------------ the two-aggregate form

  // One row of `select endpoint, token_id, sum(amount_raw) ... group by endpoint, token_id`.
  datatype GroupRow = GroupRow(addr: string, token: Token, sum: int)

  // Σ of amounts by one endpoint, over events before the cutoff.
  function EndpointSum(events: seq<Event>, endpoint: Event -> string, addr: string, token: Token,
                       asOf: Option<int>): int {
    if events == [] then 0
    else
      var e := events[|events| - 1];
      EndpointSum(events[..|events| - 1], endpoint, addr, token, asOf)
      + (if NotAfter(e, asOf) && e.key.token == token && endpoint(e) == addr then e.amount else 0)
  }

  ghost predicate HasEndpoint(events: seq<Event>, endpoint: Event -> string, addr: string, token: Token,
                              asOf: Option<int>) {
    exists e :: e in events && NotAfter(e, asOf) && e.key.token == token && endpoint(e) == addr
  }

  ghost predicate IsGroupBy(rows: seq<GroupRow>, events: seq<Event>, endpoint: Event -> string, scope: set<string>,
                            asOf: Option<int>) {
    && (forall i, j :: 0 <= i < j < |rows| ==> rows[i].addr != rows[j].addr || rows[i].token != rows[j].token)
    && (forall r :: r in rows ==> r.addr in scope && HasEndpoint(events, endpoint, r.addr, r.token, asOf)
                                  && r.sum == EndpointSum(events, endpoint, r.addr, r.token, asOf))
    && (forall a, t ::
        a in scope && HasEndpoint(events, endpoint, a, t, asOf) ==>
          exists r :: r in rows && r.addr == a && r.token == t)
  }

  type Net = map<(string, Token), int>

  function NetAt(m: Net, a: string, t: Token): int {
    if (a, t) in m then m[(a, t)] else 0
  }

  function RowSum(rows: seq<GroupRow>, a: string, t: Token): int {
    if rows == [] then 0
    else
      var r := rows[|rows| - 1];
      RowSum(rows[..|rows| - 1], a, t) + (if r.addr == a && r.token == t then r.sum else 0)
  }

  ghost predicate HasRow(rows: seq<GroupRow>, a: string, t: Token) {
    exists r :: r in rows && r.addr == a && r.token == t
  }

  function BumpCell(net: Net, r: GroupRow, sign: int): Net {
    net[(r.addr, r.token) := NetAt(net, r.addr, r.token) + sign * r.sum]
  }

  function Cell(r: GroupRow, a: string, t: Token): int { if r.addr == a && r.token == t then r.sum else 0 }

  lemma RowSumPush(done: seq<GroupRow>, r: GroupRow, a: string, t: Token)
    ensures RowSum(done + [r], a, t) == RowSum(done, a, t) + Cell(r, a, t)
    ensures HasRow(done + [r], a, t) <==> HasRow(done, a, t) || (r.addr == a && r.token == t)
  {
    var now := done + [r];
    assert now[..|now| - 1] == done && now[|now| - 1] == r;
  }

  lemma BumpCellAt(net: Net, r: GroupRow, sign: int, a: string, t: Token)
    ensures NetAt(BumpCell(net, r, sign), a, t) == NetAt(net, a, t) + sign * Cell(r, a, t)
    ensures (a, t) in BumpCell(net, r, sign) <==> (a, t) in net || (r.addr == a && r.token == t)
  {
  }

  // balances.ts:57-61, for the rows of one aggregate.
  method Bump(net0: Net, rows: seq<GroupRow>, sign: int) returns (net: Net)
    ensures forall a, t :: NetAt(net, a, t) == NetAt(net0, a, t) + sign * RowSum(rows, a, t)
    ensures forall a, t :: (a, t) in net <==> (a, t) in net0 || HasRow(rows, a, t)
  {
    net := net0;
    for i := 0 to |rows|
      invariant forall a, t :: NetAt(net, a, t) == NetAt(net0, a, t) + sign * RowSum(rows[..i], a, t)
      invariant forall a, t :: (a, t) in net <==> (a, t) in net0 || HasRow(rows[..i], a, t)
    {
      ghost var before := net;
      net := BumpCell(net, rows[i], sign);
      assert rows[..i + 1] == rows[..i] + [rows[i]];
      forall a, t
        ensures NetAt(net, a, t) == NetAt(net0, a, t) + sign * RowSum(rows[..i + 1], a, t)
        ensures (a, t) in net <==> (a, t) in net0 || HasRow(rows[..i + 1], a, t)
      {
        BumpCellAt(before, rows[i], sign, a, t);
        RowSumPush(rows[..i], rows[i], a, t);
        Distribute(sign, RowSum(rows[..i], a, t), Cell(rows[i], a, t));
      }
    }
    assert rows[..|rows|] == rows;
  }

  lemma Distribute(k: int, a: int, b: int)
    ensures k * (a + b) == k * a + k * b
  {
  }

  lemma {:induction false} RowSumAbsent(rows: seq<GroupRow>, a: string, t: Token)
    requires !HasRow(rows, a, t)
    ensures RowSum(rows, a, t) == 0
  {
    if rows != [] {
      assert rows[|rows| - 1] in rows;
      RowSumAbsent(rows[..|rows| - 1], a, t);
    }
  }

  lemma {:induction false} RowSumSingle(rows: seq<GroupRow>, r: GroupRow)
    requires forall i, j :: 0 <= i < j < |rows| ==> rows[i].addr != rows[j].addr || rows[i].token != rows[j].token
    requires r in rows
    ensures RowSum(rows, r.addr, r.token) == r.sum
  {
    var n := |rows| - 1;
    if rows[n] == r {
      RowSumAbsent(rows[..n], r.addr, r.token);
    } else {
      RowSumSingle(rows[..n], r);
    }
  }

  lemma {:induction false} EndpointSumAbsent(events: seq<Event>, endpoint: Event -> string, a: string, t: Token,
                                             asOf: Option<int>)
    requires !HasEndpoint(events, endpoint, a, t, asOf)
    ensures EndpointSum(events, endpoint, a, t, asOf) == 0
  {
    if events != [] {
      assert events[|events| - 1] in events;
      EndpointSumAbsent(events[..|events| - 1], endpoint, a, t, asOf);
    }
  }

  lemma GroupSums(rows: seq<GroupRow>, events: seq<Event>, endpoint: Event -> string, scope: set<string>,
                  asOf: Option<int>, a: string, t: Token)
    requires IsGroupBy(rows, events, endpoint, scope, asOf)
    ensures HasRow(rows, a, t) <==> a in scope && HasEndpoint(events, endpoint, a, t, asOf)
    ensures a in scope ==> RowSum(rows, a, t) == EndpointSum(events, endpoint, a, t, asOf)
  {
    if HasRow(rows, a, t) {
      var r :| r in rows && r.addr == a && r.token == t;
      RowSumSingle(rows, r);
    } else {
      RowSumAbsent(rows, a, t);
      if a in scope { EndpointSumAbsent(events, endpoint, a, t, asOf); }
    }
  }

  lemma {:induction false} BalanceIsDifference(events: seq<Event>, a: string, t: Token, asOf: Option<int>)
    ensures Balance(events, a, t, asOf) ==
            EndpointSum(events, ToOf(), a, t, asOf) - EndpointSum(events, FromOf(), a, t, asOf)
  {
    if events != [] { BalanceIsDifference(events[..|events| - 1], a, t, asOf); }
  }

  function ToOf(): Event -> string { (e: Event) => e.to }

  function FromOf(): Event -> string { (e: Event) => e.from }

  // The netting of the two SQL aggregates is the balance fold: same cells, same amounts.
  method NetAggregates(ghost events: seq<Event>, ghost scope: set<string>, ghost asOf: Option<int>,
                       inflow: seq<GroupRow>, outflow: seq<GroupRow>) returns (net: Net)
    requires IsGroupBy(inflow, events, ToOf(), scope, asOf)
    requires IsGroupBy(outflow, events, FromOf(), scope, asOf)
    ensures forall a, t :: (a, t) in net <==> a in scope && exists e :: e in events && Touches(e, a, t, asOf)
    ensures forall a, t :: (a, t) in net ==> net[(a, t)] == Balance(events, a, t, asOf)
  {
    var half := Bump(map[], inflow, 1);
    net := Bump(half, outflow, -1);
    forall a, t
      ensures (a, t) in net <==> a in scope && exists e :: e in events && Touches(e, a, t, asOf)
      ensures (a, t) in net ==> net[(a, t)] == Balance(events, a, t, asOf)
    {
      GroupSums(inflow, events, ToOf(), scope, asOf, a, t);
      GroupSums(outflow, events, FromOf(), scope, asOf, a, t);
      BalanceIsDifference(events, a, t, asOf);
      TouchesEither(events, a, t, asOf);
      assert NetAt(net, a, t) == NetAt(half, a, t) + (-1) * RowSum(outflow, a, t);
      assert NetAt(half, a, t) == 0 + 1 * RowSum(inflow, a, t);
    }
  }

  lemma TouchesEither(events: seq<Event>, a: string, t: Token, asOf: Option<int>)
    ensures (exists e :: e in events && Touches(e, a, t, asOf))
       <==> HasEndpoint(events, ToOf(), a, t, asOf) || HasEndpoint(events, FromOf(), a, t, asOf)
  {
    if e :| e in events && Touches(e, a, t, asOf) {
      assert ToOf()(e) == a || FromOf()(e) == a;
    }
    if HasEndpoint(events, ToOf(), a, t, asOf) {
      var e :| e in events && NotAfter(e, asOf) && e.key.token == t && ToOf()(e) == a;
      assert Touches(e, a, t, asOf);
    }
    if HasEndpoint(events, FromOf(), a, t, asOf) {
      var e :| e in events && NotAfter(e, asOf) && e.key.token == t && FromOf()(e) == a;
      assert Touches(e, a, t, asOf);
    }
  }
}
