// What the flow, counterparty and gas folds report, event by event (packages/ledger/src/fold.ts:50-162).

module FlowLaws {
  import opened Types
  import opened Text
  import opened Sequences
  import opened Ledger

  // Σ of the amounts of the events that count.
  function Total(events: seq<Event>, counts: Event -> bool): int {
    if events == [] then 0
    else Total(events[..|events| - 1], counts) + if counts(events[|events| - 1]) then events[|events| - 1].amount else 0
  }

  function HashesOf(events: seq<Event>, counts: Event -> bool): set<string> {
    set e | e in events && counts(e) :: e.key.txHash
  }

  // A transfer of the token inside the window, both ends of which belong to it.
  predicate IsMoved(e: Event, w: Window, token: Token) {
    && e.key.token == token && (e.kind == NativeTransfer || e.kind == Erc20TransferKind)
    && (w.from.Some? ==> w.from.value <= e.time) && (w.to.Some? ==> e.time <= w.to.value)
  }

  function ComesIn(scope: set<string>, w: Window, token: Token): Event -> bool {
    (e: Event) => IsMoved(e, w, token) && e.from !in scope && e.to in scope
  }

  function GoesOut(scope: set<string>, w: Window, token: Token): Event -> bool {
    (e: Event) => IsMoved(e, w, token) && e.from in scope && e.to !in scope
  }

  function StaysInside(scope: set<string>, w: Window, token: Token): Event -> bool {
    (e: Event) => IsMoved(e, w, token) && e.from in scope && e.to in scope
  }

  function CrossesWith(scope: set<string>, w: Window, token: Token, cp: string): Event -> bool {
    (e: Event) => (ComesIn(scope, w, token)(e) && e.from == cp) || (GoesOut(scope, w, token)(e) && e.to == cp)
  }

  function Crosses(scope: set<string>, w: Window, token: Token): Event -> bool {
    (e: Event) => ComesIn(scope, w, token)(e) || GoesOut(scope, w, token)(e)
  }

  // A fee that an address in scope paid inside the window.
  function Burns(scope: set<string>, w: Window, token: Token): Event -> bool {
    (e: Event) => e.kind == GasFee && e.key.token == token && e.from in scope
                  && (w.from.Some? ==> w.from.value <= e.time) && (w.to.Some? ==> e.time <= w.to.value)
  }

  function Receives(addr: string, token: Token, asOf: Option<int>): Event -> bool {
    (e: Event) => e.key.token == token && e.to == addr && (asOf.Some? ==> e.time <= asOf.value)
  }

  function Sends(addr: string, token: Token, asOf: Option<int>): Event -> bool {
    (e: Event) => e.key.token == token && e.from == addr && (asOf.Some? ==> e.time <= asOf.value)
  }

  // A balance is what the address received less what it sent, by events of any kind up to the date.
  lemma {:induction false} BalanceMeans(events: seq<Event>, addr: string, token: Token, asOf: Option<int>)
    ensures Balance(events, addr, token, asOf) ==
            Total(events, Receives(addr, token, asOf)) - Total(events, Sends(addr, token, asOf))
  {
    if events != [] { BalanceMeans(events[..|events| - 1], addr, token, asOf); }
  }

  lemma HashesPush(events: seq<Event>, counts: Event -> bool)
    requires events != []
    ensures var init, e := events[..|events| - 1], events[|events| - 1];
      HashesOf(events, counts) == HashesOf(init, counts) + if counts(e) then {e.key.txHash} else {}
  {
    var init, e := events[..|events| - 1], events[|events| - 1];
    assert forall x :: x in events <==> x in init || x == e;
  }

  // External flow: what came in from outside the scope, what went out of it, and the transactions of both.
  lemma {:induction false} ExternalFlowMeans(events: seq<Event>, scope: set<string>, w: Window, token: Token)
    ensures var flow := ExternalFlow(events, scope, w, token);
      && flow.inflow == Total(events, ComesIn(scope, w, token))
      && flow.outflow == Total(events, GoesOut(scope, w, token))
      && flow.txHashes == HashesOf(events, Crosses(scope, w, token))
  {
    if events != [] {
      ExternalFlowMeans(events[..|events| - 1], scope, w, token);
      HashesPush(events, Crosses(scope, w, token));
    }
  }

  // Internal flow: transfers between two addresses of the scope, on both sides.
  lemma {:induction false} InternalFlowMeans(events: seq<Event>, scope: set<string>, w: Window, token: Token)
    ensures var flow := InternalFlow(events, scope, w, token);
      && flow.inflow == flow.outflow == Total(events, StaysInside(scope, w, token))
      && flow.txHashes == HashesOf(events, StaysInside(scope, w, token))
  {
    if events != [] {
      InternalFlowMeans(events[..|events| - 1], scope, w, token);
      HashesPush(events, StaysInside(scope, w, token));
    }
  }

  function FromWhom(scope: set<string>, w: Window, token: Token, cp: string): Event -> bool {
    (e: Event) => ComesIn(scope, w, token)(e) && e.from == cp
  }

  function ToWhom(scope: set<string>, w: Window, token: Token, cp: string): Event -> bool {
    (e: Event) => GoesOut(scope, w, token)(e) && e.to == cp
  }

  lemma CountsWith(e: Event, scope: set<string>, w: Window, cp: string, token: Token)
    ensures FromWhom(scope, w, token, cp)(e) <==>
            e.key.token == token && SideOf(e, scope, w) == Inbound && CounterpartyOf(e, scope, w) == Some(cp)
    ensures ToWhom(scope, w, token, cp)(e) <==>
            e.key.token == token && SideOf(e, scope, w) == Outbound && CounterpartyOf(e, scope, w) == Some(cp)
    ensures CounterpartyOf(e, scope, w) == Some(cp) ==>
            SideOf(e, scope, w) == Inbound || SideOf(e, scope, w) == Outbound
    ensures CrossesWith(scope, w, token, cp)(e) <==> FromWhom(scope, w, token, cp)(e) || ToWhom(scope, w, token, cp)(e)
  {
    var who := CounterpartyOf(e, scope, w);
    assert ComesIn(scope, w, token)(e) <==> e.key.token == token && SideOf(e, scope, w) == Inbound;
    assert GoesOut(scope, w, token)(e) <==> e.key.token == token && SideOf(e, scope, w) == Outbound;
    assert SideOf(e, scope, w) == Inbound ==> who == Some(e.from);
    assert SideOf(e, scope, w) == Outbound ==> who == Some(e.to);
  }

  // Turnover with a counterparty: what came from it and what went to it.
  lemma {:induction false} CounterpartyFlowMeans(events: seq<Event>, scope: set<string>, w: Window, cp: string,
                                                 token: Token)
    ensures var flow := CounterpartyFlow(events, scope, w, cp, token);
      && flow.inflow == Total(events, FromWhom(scope, w, token, cp))
      && flow.outflow == Total(events, ToWhom(scope, w, token, cp))
      && flow.txHashes == HashesOf(events, CrossesWith(scope, w, token, cp))
  {
    if events != [] {
      var init, e := events[..|events| - 1], events[|events| - 1];
      CounterpartyFlowMeans(init, scope, w, cp, token);
      CountsWith(e, scope, w, cp, token);
      var before := CounterpartyFlow(init, scope, w, cp, token);
      assert CounterpartyFlow(events, scope, w, cp, token) ==
             if FromWhom(scope, w, token, cp)(e) then AddFlow(before, e.amount, 0, e.key.txHash)
             else if ToWhom(scope, w, token, cp)(e) then AddFlow(before, 0, e.amount, e.key.txHash)
             else before;
      HashesPush(events, CrossesWith(scope, w, token, cp));
    }
  }

  // Gas: the fees paid and how many.
  lemma {:induction false} GasMeans(events: seq<Event>, scope: set<string>, w: Window, token: Token)
    ensures GasSpent(events, scope, w, token) == Total(events, Burns(scope, w, token))
    ensures GasCount(events, scope, w, token) == |Filter(Burns(scope, w, token), events)|
  {
    if events != [] {
      var n := |events| - 1;
      GasMeans(events[..n], scope, w, token);
      assert events == events[..n] + [events[n]];
      FilterPush(Burns(scope, w, token), events[..n], events[n]);
    }
  }
}
