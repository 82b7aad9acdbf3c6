// The folds over an event list (packages/ledger/src/fold.ts, balances.ts) and what ties them
// together: balances decompose into openings, external flows and gas.

module Ledger {
  import opened Text
  import opened Types

  datatype Window = Window(from: Option<int>, to: Option<int>)

  predicate InWindow(e: Event, w: Window) {
    (w.from.Some? ==> e.time >= w.from.value) && (w.to.Some? ==> e.time <= w.to.value)
  }

  predicate IsTransfer(e: Event) { e.kind == NativeTransfer || e.kind == Erc20TransferKind }

  predicate NotAfter(e: Event, asOf: Option<int>) { asOf.Some? ==> e.time <= asOf.value }

  // ------------------------------------------------------------------ balances

  // What one event does to the balance of an address in a token.
  function Delta(e: Event, addr: string, token: Token): int {
    (if e.key.token == token && e.to == addr then e.amount else 0)
    - (if e.key.token == token && e.from == addr then e.amount else 0)
  }

  function Balance(events: seq<Event>, addr: string, token: Token, asOf: Option<int>): int {
    if events == [] then 0
    else
      var e := events[|events| - 1];
      Balance(events[..|events| - 1], addr, token, asOf) + (if NotAfter(e, asOf) then Delta(e, addr, token) else 0)
  }

  predicate Touches(e: Event, addr: string, token: Token, asOf: Option<int>) {
    NotAfter(e, asOf) && e.key.token == token && (e.to == addr || e.from == addr)
  }

  type Balances = map<string, map<Token, int>>

  function At(m: Balances, addr: string, token: Token): Option<int> {
    if addr in m && token in m[addr] then Some(m[addr][token]) else None
  }

  function Add(m: Balances, addr: string, token: Token, delta: int): Balances {
    var inner := if addr in m then m[addr] else map[];
    m[addr := inner[token := (if token in inner then inner[token] else 0) + delta]]
  }

  // A cell exists exactly when an in-scope event touches it, and holds the sum.
  ghost predicate IsBalanceFold(m: Balances, events: seq<Event>, scope: set<string>, asOf: Option<int>) {
    forall a, t ::
      && (At(m, a, t).Some? <==> a in scope && exists e :: e in events && Touches(e, a, t, asOf))
      && (At(m, a, t).Some? ==> At(m, a, t).value == Balance(events, a, t, asOf))
  }

  lemma AddAt(m: Balances, addr: string, token: Token, delta: int, a: string, t: Token)
    ensures At(Add(m, addr, token, delta), a, t) ==
      if a == addr && t == token then Some((if At(m, a, t).Some? then At(m, a, t).value else 0) + delta)
      else At(m, a, t)
  {
  }

  lemma {:induction false} UntouchedIsZero(events: seq<Event>, a: string, t: Token, asOf: Option<int>)
    requires forall e :: e in events ==> !Touches(e, a, t, asOf)
    ensures Balance(events, a, t, asOf) == 0
  {
    if events != [] {
      UntouchedIsZero(events[..|events| - 1], a, t, asOf);
      assert events[|events| - 1] in events;
    }
  }

  function FoldEvent(m: Balances, e: Event, scope: set<string>, asOf: Option<int>): Balances {
    if !NotAfter(e, asOf) then m
    else
      var m1 := if e.to in scope then Add(m, e.to, e.key.token, e.amount) else m;
      if e.from in scope then Add(m1, e.from, e.key.token, -e.amount) else m1
  }

  lemma FoldEventAt(m: Balances, e: Event, scope: set<string>, asOf: Option<int>, a: string, t: Token)
    ensures At(FoldEvent(m, e, scope, asOf), a, t) ==
      if a in scope && Touches(e, a, t, asOf)
      then Some((if At(m, a, t).Some? then At(m, a, t).value else 0) + Delta(e, a, t))
      else At(m, a, t)
  {
    AddAt(m, e.to, e.key.token, e.amount, a, t);
    var m1 := if e.to in scope then Add(m, e.to, e.key.token, e.amount) else m;
    AddAt(m1, e.from, e.key.token, -e.amount, a, t);
  }

  lemma FoldEventKeeps(m: Balances, done: seq<Event>, e: Event, scope: set<string>, asOf: Option<int>)
    requires IsBalanceFold(m, done, scope, asOf)
    ensures IsBalanceFold(FoldEvent(m, e, scope, asOf), done + [e], scope, asOf)
  {
    var all, r := done + [e], FoldEvent(m, e, scope, asOf);
    assert all[..|all| - 1] == done && all[|all| - 1] == e;
    forall a, t
      ensures At(r, a, t).Some? <==> a in scope && exists x :: x in all && Touches(x, a, t, asOf)
      ensures At(r, a, t).Some? ==> At(r, a, t).value == Balance(all, a, t, asOf)
    {
      FoldEventAt(m, e, scope, asOf, a, t);
      assert At(m, a, t).Some? <==> a in scope && exists x :: x in done && Touches(x, a, t, asOf);
      assert forall x :: x in all <==> x in done || x == e;
      if At(m, a, t).None? && a in scope { UntouchedIsZero(done, a, t, asOf); }
    }
  }

  // fold.ts:34-48.
  method FoldBalances(events: seq<Event>, scope: set<string>, asOf: Option<int>) returns (out: Balances)
    ensures IsBalanceFold(out, events, scope, asOf)
  {
    out := map[];
    for i := 0 to |events|
      invariant IsBalanceFold(out, events[..i], scope, asOf)
    {
      ghost var before := out;
      var e := events[i];
      if NotAfter(e, asOf) {
        if e.to in scope { out := Add(out, e.to, e.key.token, e.amount); }
        if e.from in scope { out := Add(out, e.from, e.key.token, -e.amount); }
      }
      assert out == FoldEvent(before, e, scope, asOf);
      FoldEventKeeps(before, events[..i], e, scope, asOf);
      assert events[..i + 1] == events[..i] + [e];
    }
    assert events[..|events|] == events;
  }

  // ------------------------------------------------------------------ flows and gas

  datatype FlowAgg = FlowAgg(inflow: int, outflow: int, txHashes: set<string>)

  const NO_FLOW := FlowAgg(0, 0, {})

  function AddFlow(a: FlowAgg, inflow: int, outflow: int, txHash: string): FlowAgg {
    FlowAgg(a.inflow + inflow, a.outflow + outflow, a.txHashes + {txHash})
  }

  // Where an event counts: outside the scope, between two of its addresses, or nowhere.
  datatype Side = NoSide | Internal | Inbound | Outbound

  function SideOf(e: Event, scope: set<string>, w: Window): Side {
    if !IsTransfer(e) || !InWindow(e, w) then NoSide
    else if e.from in scope && e.to in scope then Internal
    else if e.to in scope then Inbound
    else if e.from in scope then Outbound
    else NoSide
  }

  function ExternalFlow(events: seq<Event>, scope: set<string>, w: Window, token: Token): FlowAgg {
    if events == [] then NO_FLOW
    else
      var e := events[|events| - 1];
      var a := ExternalFlow(events[..|events| - 1], scope, w, token);
      if e.key.token != token then a
      else match SideOf(e, scope, w)
        case Inbound => AddFlow(a, e.amount, 0, e.key.txHash)
        case Outbound => AddFlow(a, 0, e.amount, e.key.txHash)
        case _ => a
  }

  function InternalFlow(events: seq<Event>, scope: set<string>, w: Window, token: Token): FlowAgg {
    if events == [] then NO_FLOW
    else
      var e := events[|events| - 1];
      var a := InternalFlow(events[..|events| - 1], scope, w, token);
      if e.key.token == token && SideOf(e, scope, w) == Internal then AddFlow(a, e.amount, e.amount, e.key.txHash)
      else a
  }

  function FlowAt(m: map<Token, FlowAgg>, token: Token): FlowAgg {
    if token in m then m[token] else NO_FLOW
  }

  // fold.ts:72-97.
  method FoldFlows(events: seq<Event>, scope: set<string>, w: Window)
    returns (externalByToken: map<Token, FlowAgg>, internalByToken: map<Token, FlowAgg>)
    ensures forall t :: FlowAt(externalByToken, t) == ExternalFlow(events, scope, w, t)
    ensures forall t :: FlowAt(internalByToken, t) == InternalFlow(events, scope, w, t)
  {
    externalByToken, internalByToken := map[], map[];
    for i := 0 to |events|
      invariant forall t :: FlowAt(externalByToken, t) == ExternalFlow(events[..i], scope, w, t)
      invariant forall t :: FlowAt(internalByToken, t) == InternalFlow(events[..i], scope, w, t)
    {
      var e := events[i];
      ghost var now := events[..i + 1];
      assert now[..|now| - 1] == events[..i] && now[|now| - 1] == e;
      if IsTransfer(e) && InWindow(e, w) {
        var t := e.key.token;
        var fromIn, toIn := e.from in scope, e.to in scope;
        if fromIn && toIn {
          internalByToken :=
            internalByToken[t := AddFlow(FlowAt(internalByToken, t), e.amount, e.amount, e.key.txHash)];
        } else if toIn {
          externalByToken := externalByToken[t := AddFlow(FlowAt(externalByToken, t), e.amount, 0, e.key.txHash)];
        } else if fromIn {
          externalByToken := externalByToken[t := AddFlow(FlowAt(externalByToken, t), 0, e.amount, e.key.txHash)];
        }
      }
    }
    assert events[..|events|] == events;
  }

  function GasSpent(events: seq<Event>, scope: set<string>, w: Window, token: Token): int {
    if events == [] then 0
    else
      var e := events[|events| - 1];
      GasSpent(events[..|events| - 1], scope, w, token)
      + (if e.key.token == token && IsGas(e, scope, w) then e.amount else 0)
  }

  predicate IsGas(e: Event, scope: set<string>, w: Window) { e.kind == GasFee && e.from in scope && InWindow(e, w) }

  function GasCount(events: seq<Event>, scope: set<string>, w: Window, token: Token): nat {
    if events == [] then 0
    else
      var e := events[|events| - 1];
      GasCount(events[..|events| - 1], scope, w, token) + (if e.key.token == token && IsGas(e, scope, w) then 1 else 0)
  }

  function GasAt(m: map<Token, (int, nat)>, token: Token): (int, nat) {
    if token in m then m[token] else (0, 0)
  }

  // fold.ts:145-162.
  method FoldGas(events: seq<Event>, scope: set<string>, w: Window) returns (out: map<Token, (int, nat)>)
    ensures forall t :: GasAt(out, t) == (GasSpent(events, scope, w, t), GasCount(events, scope, w, t))
  {
    out := map[];
    for i := 0 to |events|
      invariant forall t :: GasAt(out, t) == (GasSpent(events[..i], scope, w, t), GasCount(events[..i], scope, w, t))
    {
      var e := events[i];
      ghost var now := events[..i + 1];
      assert now[..|now| - 1] == events[..i] && now[|now| - 1] == e;
      if e.kind == GasFee && e.from in scope && InWindow(e, w) {
        var cur := GasAt(out, e.key.token);
        out := out[e.key.token := (cur.0 + e.amount, cur.1 + 1)];
      }
    }
    assert events[..|events|] == events;
  }

  // ------------------------------------------------------------------ counterparties

  // The endpoint outside the scope, of an external transfer.
  function CounterpartyOf(e: Event, scope: set<string>, w: Window): Option<string> {
    match SideOf(e, scope, w)
    case Inbound => Some(e.from)
    case Outbound => Some(e.to)
    case _ => None
  }

  function CounterpartyFlow(events: seq<Event>, scope: set<string>, w: Window, cp: string, token: Token): FlowAgg {
    if events == [] then NO_FLOW
    else
      var e := events[|events| - 1];
      var a := CounterpartyFlow(events[..|events| - 1], scope, w, cp, token);
      if e.key.token != token || CounterpartyOf(e, scope, w) != Some(cp) then a
      else if SideOf(e, scope, w) == Inbound then AddFlow(a, e.amount, 0, e.key.txHash)
      else AddFlow(a, 0, e.amount, e.key.txHash)
  }

  type Turnover = map<string, map<Token, FlowAgg>>

  function CellAt(m: Turnover, cp: string, token: Token): FlowAgg {
    if cp in m && token in m[cp] then m[cp][token] else NO_FLOW
  }

  function SetCell(m: Turnover, cp: string, token: Token, a: FlowAgg): Turnover {
    m[cp := (if cp in m then m[cp] else map[])[token := a]]
  }

  // fold.ts:111-142.
  method FoldCounterparties(events: seq<Event>, scope: set<string>, w: Window) returns (out: Turnover)
    ensures forall cp, t :: CellAt(out, cp, t) == CounterpartyFlow(events, scope, w, cp, t)
    ensures forall e :: e in events && CounterpartyOf(e, scope, w).Some? ==> CounterpartyOf(e, scope, w).value in out
  {
    out := map[];
    for i := 0 to |events|
      invariant forall cp, t :: CellAt(out, cp, t) == CounterpartyFlow(events[..i], scope, w, cp, t)
      invariant forall k ::
        0 <= k < i && CounterpartyOf(events[k], scope, w).Some? ==> CounterpartyOf(events[k], scope, w).value in out
    {
      var e := events[i];
      ghost var now := events[..i + 1];
      assert now[..|now| - 1] == events[..i] && now[|now| - 1] == e;
      if IsTransfer(e) && InWindow(e, w) {
        var t := e.key.token;
        var fromIn, toIn := e.from in scope, e.to in scope;
        if !(fromIn && toIn) {
          if toIn {
            out := SetCell(out, e.from, t, AddFlow(CellAt(out, e.from, t), e.amount, 0, e.key.txHash));
          } else if fromIn {
            out := SetCell(out, e.to, t, AddFlow(CellAt(out, e.to, t), 0, e.amount, e.key.txHash));
          }
        }
      }
    }
    assert events[..|events|] == events;
  }
}
