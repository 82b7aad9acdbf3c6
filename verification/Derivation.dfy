// What the whole of packages/ingestion/src/normalize.ts derives: a function of the set of rows, whose
// events move balances as the rows say.

module Derivation {
  import opened Text
  import opened Types
  import opened Sequences
  import opened Normalize
  import opened Sentinels
  import opened Committable
  import opened Ledger
  import opened LedgerLaws

  // The rows of one transaction agree on its block and time.
  ghost predicate TxsAgree(items: seq<InternalTx>) {
    forall a, b :: a in items && b in items && Lower(a.hash) == Lower(b.hash) ==> a.block == b.block && a.time == b.time
  }

  lemma NativeOrder(txs: seq<NativeTx>, txs': seq<NativeTx>, ctx: Context, e: Event)
    requires multiset(txs) == multiset(txs') && FeesKnown(txs, ctx)
    ensures FeesKnown(txs', ctx)
    ensures e in NativeEvents(txs, ctx) <==> e in NativeEvents(txs', ctx)
  {
    PermutationFacts(txs, txs');
    forall i | 0 <= i < |txs'| ensures FeeKnown(txs'[i], ctx) {
      assert txs'[i] in txs;
      FeeOfRow(txs, ctx, txs'[i]);
    }
    NativeEventRow(txs, ctx, e);
    NativeEventRow(txs', ctx, e);
  }

  lemma InternalOrder(items: seq<InternalTx>, items': seq<InternalTx>, e: Event)
    requires multiset(items) == multiset(items') && TxsAgree(items)
    ensures e in InternalEvents(ValueMoves(items)) <==> e in InternalEvents(ValueMoves(items'))
  {
    var h := e.key.txHash;
    var g, g' := Group(ValueMoves(items), h), Group(ValueMoves(items'), h);
    GroupIts(items, h);
    GroupIts(items', h);
    FilterPermutation(MoveOf(h), items, items');
    RankedFromGroup(items, e);
    RankedFromGroup(items', e);
    FilterMembers(MoveOf(h), items);
    if Its(g) == [] {
      PermutationFacts(Its(g), Its(g'));
      assert RankedEvents(g) == [] && RankedEvents(g') == [];
    } else {
      var it := Its(g)[0];
      assert it in Its(g);
      forall i | 0 <= i < |Its(g)|
        ensures Lower(Its(g)[i].hash) == h && Its(g)[i].block == it.block && Its(g)[i].time == it.time {
        assert Its(g)[i] in Its(g);
      }
      ArrivalOrderIrrelevant(h, it.block, it.time, g, g');
    }
  }

  lemma Erc20Order(rows: seq<Erc20WithMeta>, rows': seq<Erc20WithMeta>, e: Event)
    requires multiset(rows) == multiset(rows')
    ensures e in Erc20Events(rows) <==> e in Erc20Events(rows')
  {
    PermutationFacts(rows, rows');
    if e in Erc20Events(rows) {
      var i :| 0 <= i < |rows| && Erc20Events(rows)[i] == e;
      assert rows[i] in rows';
      var j :| 0 <= j < |rows'| && rows'[j] == rows[i];
      assert Erc20Events(rows')[j] == e;
    }
    if e in Erc20Events(rows') {
      var i :| 0 <= i < |rows'| && Erc20Events(rows')[i] == e;
      assert rows'[i] in rows;
      var j :| 0 <= j < |rows| && rows[j] == rows'[i];
      assert Erc20Events(rows)[j] == e;
    }
  }

  // Rows in any arrival order give the same events - the same key, sender, receiver, amount and
  // block for each - labelled or not, ties included.
  lemma NormalizeIgnoresOrder(native: seq<NativeTx>, native': seq<NativeTx>, internals: seq<InternalTx>,
                              internals': seq<InternalTx>,
                              erc20: seq<Erc20WithMeta>, erc20': seq<Erc20WithMeta>, ctx: Context, e: Event)
    requires multiset(native) == multiset(native') && multiset(internals) == multiset(internals')
             && multiset(erc20) == multiset(erc20')
    requires FeesKnown(native, ctx) && TxsAgree(internals)
    ensures FeesKnown(native', ctx)
    ensures e in NormalizedEvents(native, internals, erc20, ctx)
            <==> e in NormalizedEvents(native', internals', erc20', ctx)
  {
    NativeOrder(native, native', ctx, e);
    InternalOrder(internals, internals', e);
    Erc20Order(erc20, erc20', e);
  }

  // ------------------------------------------------------------------ what the rows do to a balance

  // The gas at the price paid for it.
  function GasCost(gasUsed: nat, price: nat): nat { gasUsed * price }

  // What publishing the transaction on the layer below cost, nothing on chains without one.
  function DataFee(r: Receipt): nat {
    match r.l1Fee
    case None => 0
    case Some(fee) => fee
  }

  // What the chain took for a transaction: by its own row, or by its receipt.
  function Charged(tx: NativeTx, ctx: Context): nat
    requires ctx.feeStrategy == ReceiptsOpstack ==> Lower(tx.hash) in ctx.receipts
  {
    match ctx.feeStrategy
    case TxList => GasCost(tx.gasUsed, tx.gasPrice)
    case ReceiptsOpstack =>
      var r := ctx.receipts[Lower(tx.hash)];
      GasCost(r.gasUsed, r.effectiveGasPrice) + DataFee(r)
  }

  // What came in and went out by the transaction's value, nothing if it failed.
  function ValueMoved(tx: NativeTx, addr: string): int {
    if tx.isError then 0
    else
      (if tx.to.Some? && Lower(tx.to.value) == addr then tx.value else 0)
      - (if Lower(tx.from) == addr then tx.value else 0)
  }

  // A transaction moves its value unless it failed, and costs the tracked sender its fee either way.
  function NativeEffect(tx: NativeTx, ctx: Context, addr: string): int
    requires FeeKnown(tx, ctx)
  {
    ValueMoved(tx, addr) - (if Lower(tx.from) == Lower(ctx.tracked) == addr then Charged(tx, ctx) else 0)
  }

  // An account's own transaction, failed or not, lowers its balance by gas times price where fees come
  // from rows, and by the receipt's gas times its price and its data fee where they come from receipts.
  lemma FeeLowersBalance(tx: NativeTx, ctx: Context, addr: string)
    requires addr == Lower(ctx.tracked) == Lower(tx.from) && addr != ZERO_ADDRESS && FeesKnown([tx], ctx)
    ensures var balance := Balance(NativeEvents([tx], ctx), addr, NativeToken, None);
      match ctx.feeStrategy
      case TxList => balance == ValueMoved(tx, addr) - tx.gasUsed * tx.gasPrice
      case ReceiptsOpstack =>
        && Lower(tx.hash) in ctx.receipts
        && var r := ctx.receipts[Lower(tx.hash)];
           match r.l1Fee
           case None => balance == ValueMoved(tx, addr) - r.gasUsed * r.effectiveGasPrice
           case Some(fee) => balance == ValueMoved(tx, addr) - r.gasUsed * r.effectiveGasPrice - fee
  {
    assert [tx][..0] == [];
    NativeBalance([tx], ctx, addr);
    assert NativeEffects([], ctx, addr) == 0;
  }

  ghost function NativeEffects(txs: seq<NativeTx>, ctx: Context, addr: string): int
    requires FeesKnown(txs, ctx)
  {
    if txs == [] then 0 else NativeEffects(txs[..|txs| - 1], ctx, addr) + NativeEffect(txs[|txs| - 1], ctx, addr)
  }

  function InternalEffect(it: InternalTx, addr: string): int {
    if it.isError then 0
    else
      (if it.to.Some? && Lower(it.to.value) == addr then it.value else 0)
      - (if Lower(it.from) == addr then it.value else 0)
  }

  function InternalEffects(items: seq<InternalTx>, addr: string): int {
    if items == [] then 0 else InternalEffect(items[0], addr) + InternalEffects(items[1..], addr)
  }

  // What an address sent by traces that name no receiver: such rows give no event.
  function Unaddressed(items: seq<InternalTx>, addr: string): int {
    if items == [] then 0
    else
      Unaddressed(items[1..], addr)
      + (if !items[0].isError && items[0].to.None? && Lower(items[0].from) == addr then items[0].value else 0)
  }

  lemma FeeIsCharged(tx: NativeTx, ctx: Context)
    requires ctx.feeStrategy == ReceiptsOpstack ==> Lower(tx.hash) in ctx.receipts
    ensures GasFeeOf(tx, ctx) == Charged(tx, ctx)
  {
  }

  lemma ValueIsMoved(tx: NativeTx, addr: string)
    requires addr != ZERO_ADDRESS
    ensures Balance(NativeTransferOf(tx), addr, NativeToken, None) == ValueMoved(tx, addr)
  {
    var a := NativeTransferOf(tx);
    if a != [] { SingletonBalance(a[0], addr, NativeToken, None); }
  }

  lemma FeeIsTaken(tx: NativeTx, ctx: Context, addr: string, fee: int)
    requires FeeKnown(tx, ctx) && addr != ZERO_ADDRESS
             && (Lower(tx.from) == Lower(ctx.tracked) ==> GasFeeOf(tx, ctx) == fee)
    ensures Balance(GasOf(tx, ctx), addr, NativeToken, None) ==
            if Lower(tx.from) == Lower(ctx.tracked) == addr then -fee else 0
  {
    var b := GasOf(tx, ctx);
    if b != [] { SingletonBalance(b[0], addr, NativeToken, None); }
  }

  lemma NativeRowEffect(tx: NativeTx, ctx: Context, addr: string)
    requires FeeKnown(tx, ctx) && addr != ZERO_ADDRESS
    ensures Balance(NativeTransferOf(tx) + GasOf(tx, ctx), addr, NativeToken, None) == NativeEffect(tx, ctx, addr)
  {
    BalanceConcat(NativeTransferOf(tx), GasOf(tx, ctx), addr, NativeToken, None);
    ValueIsMoved(tx, addr);
    if Lower(tx.from) == Lower(ctx.tracked) {
      FeeIsCharged(tx, ctx);
      FeeIsTaken(tx, ctx, addr, Charged(tx, ctx));
    } else {
      FeeIsTaken(tx, ctx, addr, 0);
    }
  }

  lemma {:induction false} NativeBalance(txs: seq<NativeTx>, ctx: Context, addr: string)
    requires FeesKnown(txs, ctx) && addr != ZERO_ADDRESS
    ensures Balance(NativeEvents(txs, ctx), addr, NativeToken, None) == NativeEffects(txs, ctx, addr)
  {
    if txs != [] {
      var n := |txs| - 1;
      NativeBalance(txs[..n], ctx, addr);
      NativeRowEffect(txs[n], ctx, addr);
      var before, transfer, gas := NativeEvents(txs[..n], ctx), NativeTransferOf(txs[n]), GasOf(txs[n], ctx);
      assert NativeEvents(txs, ctx) == before + (transfer + gas);
      BalanceConcat(before, transfer + gas, addr, NativeToken, None);
    }
  }

  // Ranks do not show in a balance.
  lemma {:induction false} RankFreeBalance(events: seq<Event>, its: seq<InternalTx>, addr: string)
    requires |events| == |its|
    requires forall i :: 0 <= i < |its| ==> Delta(events[i], addr, NativeToken) == InternalEffect(its[i], addr)
    ensures Balance(events, addr, NativeToken, None) == InternalEffects(its, addr)
  {
    if events != [] {
      RankFreeBalance(events[1..], its[1..], addr);
      assert events == [events[0]] + events[1..];
      BalanceConcat([events[0]], events[1..], addr, NativeToken, None);
      SingletonBalance(events[0], addr, NativeToken, None);
    }
  }

  lemma {:induction false} MovesCarryEffects(items: seq<InternalTx>, addr: string)
    ensures InternalEffects(Filter(MovesValue, items), addr) == InternalEffects(items, addr) + Unaddressed(items, addr)
  {
    if items != [] { MovesCarryEffects(items[1..], addr); }
  }

  lemma MoveDelta(it: InternalTx, n: nat, addr: string)
    requires MovesValue(it)
    ensures Delta(InternalEvent(it, n), addr, NativeToken) == InternalEffect(it, addr)
  {
  }

  lemma InternalBalance(items: seq<InternalTx>, addr: string)
    ensures Balance(InternalEvents(ValueMoves(items)), addr, NativeToken, None) ==
            InternalEffects(items, addr) + Unaddressed(items, addr)
  {
    var moves := ValueMoves(items);
    var events, its := InternalEvents(moves), Its(moves);
    ValueMovesIts(items, 0);
    forall i | 0 <= i < |its| ensures Delta(events[i], addr, NativeToken) == InternalEffect(its[i], addr) {
      assert MovesValue(moves[i].it) && its[i] == moves[i].it;
      MoveDelta(its[i], IndexOf(Ranked(moves, TxOf(moves[i])), moves[i]), addr);
    }
    RankFreeBalance(events, its, addr);
    MovesCarryEffects(items, addr);
  }

  // The balance fold over normalized events is what the rows did to the account: received less sent
  // less the fees of its own transactions, failed ones costing only their fee. It is off by exactly
  // what the account sent in traces that name no receiver.
  lemma BalanceIsRowArithmetic(native: seq<NativeTx>, internals: seq<InternalTx>, ctx: Context, addr: string)
    requires FeesKnown(native, ctx) && addr != ZERO_ADDRESS
    ensures Balance(NormalizedEvents(native, internals, [], ctx), addr, NativeToken, None)
         == NativeEffects(native, ctx, addr) + InternalEffects(internals, addr) + Unaddressed(internals, addr)
  {
    NativeBalance(native, ctx, addr);
    InternalBalance(internals, addr);
    var a, b := NativeEvents(native, ctx), InternalEvents(ValueMoves(internals));
    assert NormalizedEvents(native, internals, [], ctx) == a + b;
    BalanceConcat(a, b, addr, NativeToken, None);
  }

  // The account created a contract in this trace and gave it value.
  predicate FundsCreation(it: InternalTx, addr: string) {
    !it.isError && it.to.None? && Lower(it.from) == addr && it.value > 0
  }

  lemma {:induction false} UnaddressedIff(items: seq<InternalTx>, addr: string)
    ensures Unaddressed(items, addr) >= 0
    ensures Unaddressed(items, addr) == 0 <==> forall it :: it in items ==> !FundsCreation(it, addr)
  {
    if items != [] {
      UnaddressedIff(items[1..], addr);
      assert items[0] in items;
      assert forall it :: it in items <==> it == items[0] || it in items[1..];
    }
  }

  // The derived balance is too high, and it is so exactly when the account funded a creation.
  lemma BalanceRightIff(native: seq<NativeTx>, internals: seq<InternalTx>, ctx: Context, addr: string)
    requires FeesKnown(native, ctx) && addr != ZERO_ADDRESS
    ensures var balance := Balance(NormalizedEvents(native, internals, [], ctx), addr, NativeToken, None);
      && balance >= NativeEffects(native, ctx, addr) + InternalEffects(internals, addr)
      && (balance == NativeEffects(native, ctx, addr) + InternalEffects(internals, addr)
          <==> forall it :: it in internals ==> !FundsCreation(it, addr))
  {
    BalanceIsRowArithmetic(native, internals, ctx, addr);
    UnaddressedIff(internals, addr);
  }

  const CREATION := InternalTx(1, 7, "0x1", "0xa", None, 5, false, Some("0"))

  // A creation with 5 of value: the account has 5 less, the events say nothing.
  lemma CreationMissed(ctx: Context)
    ensures NormalizedEvents([], [CREATION], [], ctx) == []
    ensures Balance(NormalizedEvents([], [CREATION], [], ctx), "0xa", NativeToken, None) == 0
    ensures InternalEffects([CREATION], "0xa") == -5
  {
    var items := [CREATION];
    assert items[1..] == [] && !MovesValue(items[0]);
    assert ValueMovesFrom(items, 0) == ValueMovesFrom(items[1..], 1) == [];
    assert Lower("0xa") == "0xa";
    assert InternalEffects(items, "0xa") == InternalEffect(items[0], "0xa") + InternalEffects(items[1..], "0xa");
  }

  function Erc20Effects(rows: seq<Erc20WithMeta>, token: Token, addr: string): int {
    if rows == [] then 0
    else
      var r := rows[|rows| - 1].row;
      Erc20Effects(rows[..|rows| - 1], token, addr)
      + (if Erc20Token(Lower(r.contract)) != token then 0
         else (if Lower(r.to) == addr then r.value else 0) - (if Lower(r.from) == addr then r.value else 0))
  }

  // The same of token transfers, whatever log each was matched to.
  lemma {:induction false} Erc20BalanceIsRowArithmetic(rows: seq<Erc20WithMeta>, token: Token, addr: string)
    ensures Balance(Erc20Events(rows), addr, token, None) == Erc20Effects(rows, token, addr)
  {
    if rows != [] {
      var n := |rows| - 1;
      Erc20BalanceIsRowArithmetic(rows[..n], token, addr);
      assert Erc20Events(rows)[..n] == Erc20Events(rows[..n]);
    }
  }
}
