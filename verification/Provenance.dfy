// What every stored event says of the chain: each is one transfer, one fee, one trace or one token
// transfer of a row, field by field (packages/ingestion/src/normalize.ts:157-368).

module Provenance {
  import opened Text
  import opened Types
  import opened Sequences
  import opened TraceOrder
  import opened Normalize
  import opened Sentinels
  import opened LogIndex
  import opened TransferLogs
  import opened ChainModel
  import opened Committable
  import opened CanonicalKeys
  import opened Protocol
  import opened Runs

  // ------------------------------------------------------------------ native rows

  // The parties of an event and of its transaction, which are the row's in small letters. A creation has
  // no receiver: the event goes to the zero address.
  predicate TellsParties(e: Event, tx: NativeTx) {
    && e.from == Lower(tx.from) == e.txFrom
    && match tx.to
       case Some(to) => e.txTo == Some(Lower(to))
       case None => e.txTo == None
  }

  predicate TellsTransfer(e: Event, tx: NativeTx) {
    && !tx.isError && tx.value > 0
    && e.kind == NativeTransfer && e.amount == tx.value
    && e.key.txHash == Lower(tx.hash) && e.key.logIndex == -1 && e.key.token == NativeToken
    && e.block == tx.block && e.time == tx.time && TellsParties(e, tx)
    && match tx.to
       case Some(to) => e.to == Lower(to)
       case None => e.to == "0x0000000000000000000000000000000000000000"
  }

  // The fee of a transaction of the account itself, failed or not, in an event to the zero address.
  predicate TellsFee(e: Event, tx: NativeTx, ctx: Context) {
    && Lower(tx.from) == Lower(ctx.tracked)
    && e.kind == GasFee && e.to == "0x0000000000000000000000000000000000000000"
    && e.key.txHash == Lower(tx.hash) && e.key.logIndex == -2 && e.key.token == NativeToken
    && e.block == tx.block && e.time == tx.time && TellsParties(e, tx)
    && match ctx.feeStrategy
       case TxList => e.amount == tx.gasUsed * tx.gasPrice
       case ReceiptsOpstack =>
         Lower(tx.hash) in ctx.receipts && e.amount == ReceiptFee(ctx.receipts[Lower(tx.hash)])
  }

  // Gas at its price, and the data fee of an OP-stack chain.
  function ReceiptFee(r: Receipt): int {
    r.gasUsed * r.effectiveGasPrice + match r.l1Fee case Some(fee) => fee case None => 0
  }

  predicate TellsNative(e: Event, tx: NativeTx, ctx: Context) { TellsTransfer(e, tx) || TellsFee(e, tx, ctx) }

  lemma FeeAmount(tx: NativeTx, ctx: Context)
    requires ctx.feeStrategy == ReceiptsOpstack ==> Lower(tx.hash) in ctx.receipts
    ensures GasFeeOf(tx, ctx) ==
            if ctx.feeStrategy == TxList then tx.gasUsed * tx.gasPrice else ReceiptFee(ctx.receipts[Lower(tx.hash)])
  {
  }

  lemma RowTellsNative(tx: NativeTx, ctx: Context, e: Event)
    requires FeeKnown(tx, ctx)
    ensures e in NativeTransferOf(tx) <==> TellsTransfer(e, tx)
    ensures e in GasOf(tx, ctx) <==> TellsFee(e, tx, ctx)
  {
    if Lower(tx.from) == Lower(ctx.tracked) { FeeAmount(tx, ctx); }
  }

  // The native events of a page are exactly what its transactions tell: the transfers of those that
  // moved value, and a fee for each of the account's own.
  lemma NativeEventsTell(txs: seq<NativeTx>, ctx: Context, e: Event)
    requires FeesKnown(txs, ctx)
    ensures e in NativeEvents(txs, ctx) <==> exists tx :: tx in txs && TellsNative(e, tx, ctx)
  {
    NativeEventRow(txs, ctx, e);
    forall tx | tx in txs ensures RowGives(tx, ctx, e) <==> TellsNative(e, tx, ctx) {
      FeeOfRow(txs, ctx, tx);
      RowTellsNative(tx, ctx, e);
    }
  }

  // A page fails exactly when fees come from receipts and some transaction of the account has none.
  lemma FailsWithoutReceipt(txs: seq<NativeTx>, ctx: Context)
    ensures FeesKnown(txs, ctx) <==>
      !(ctx.feeStrategy == ReceiptsOpstack
        && exists tx :: tx in txs && Lower(tx.from) == Lower(ctx.tracked) && Lower(tx.hash) !in ctx.receipts)
  {
    if i :| 0 <= i < |txs| && !FeeKnown(txs[i], ctx) { assert txs[i] in txs; }
    if tx :| tx in txs && !FeeKnown(tx, ctx) {
      var i :| 0 <= i < |txs| && txs[i] == tx;
    }
  }

  // ------------------------------------------------------------------ internal rows

  // A trace that moved value, as the n-th of its transaction.
  predicate TellsTrace(e: Event, it: InternalTx, n: nat) {
    && !it.isError && it.to.Some? && it.value > 0
    && e.kind == NativeTransfer && e.amount == it.value
    && e.key.txHash == Lower(it.hash) && e.key.logIndex == -1000 - n && e.key.token == NativeToken
    && e.block == it.block && e.time == it.time
    && e.from == Lower(it.from) == e.txFrom && e.to == Lower(it.to.value) && e.txTo == Some(Lower(it.to.value))
  }

  // The traces of one transaction that moved value, in rank order.
  function RankedTraces(items: seq<InternalTx>, txHash: string): seq<InternalTx> {
    Its(Ranked(ValueMoves(items), txHash))
  }

  predicate Moving(it: InternalTx, txHash: string) {
    Lower(it.hash) == txHash && !it.isError && it.to.Some? && it.value > 0
  }

  lemma {:induction false} FilterSame<T(!new)>(p: T -> bool, q: T -> bool, s: seq<T>)
    requires forall x :: x in s ==> p(x) == q(x)
    ensures Filter(p, s) == Filter(q, s)
  {
    if s != [] {
      assert s[0] in s;
      FilterSame(p, q, s[1..]);
    }
  }

  // The ranked traces are those of the transaction that moved value, each as often as it was served.
  lemma RankedAreMoving(items: seq<InternalTx>, txHash: string)
    ensures multiset(RankedTraces(items, txHash)) == multiset(Filter((it: InternalTx) => Moving(it, txHash), items))
  {
    var moves := ValueMoves(items);
    GroupIts(items, txHash);
    MapPermutation(ItOf(), Ranked(moves, txHash), Group(moves, txHash));
    FilterSame(MoveOf(txHash), (it: InternalTx) => Moving(it, txHash), items);
  }

  // Each trace of the transaction has a usable label and no two the same one.
  ghost predicate UsableLabels(its: seq<InternalTx>) {
    && (forall i :: 0 <= i < |its| ==> its[i].traceId.Some? && IsDecimalTracePath(its[i].traceId.value))
    && (forall i, j :: 0 <= i < j < |its| ==> its[i].traceId != its[j].traceId)
  }

  // By label where all have one, else by sender, receiver and value.
  ghost predicate StandsBefore(usable: bool, a: InternalTx, b: InternalTx)
    requires a.to.Some? && b.to.Some? && (usable ==> a.traceId.Some? && b.traceId.Some?)
  {
    if usable then CompareLabels(a.traceId.value, b.traceId.value) < 0
    else
      && CompareStr(Lower(a.from), Lower(b.from)) <= 0
      && (Lower(a.from) == Lower(b.from) ==> CompareStr(Lower(a.to.value), Lower(b.to.value)) <= 0)
      && (Lower(a.from) == Lower(b.from) && Lower(a.to.value) == Lower(b.to.value) ==> a.value <= b.value)
  }

  lemma NoLabelIsUnusable()
    ensures !IsDecimalTracePath("")
  {
    assert Split("") == [[]] && Split("")[0] == "";
  }

  lemma UsableMeans(its: seq<InternalTx>)
    ensures Labelled(its) <==> UsableLabels(its)
  {
    NoLabelIsUnusable();
    var labels := Labels(its);
    SetSize(labels);
    assert forall i :: 0 <= i < |its| ==> labels[i] == LabelOf(its[i]);
  }

  // A trace that does not sort after another, of which it is not the equal by label, stands before it.
  lemma NotAfterStands(labelled: bool, a: Move, b: Move)
    requires a.it.to.Some? && b.it.to.Some? && !Normalize.Before(labelled, b, a)
    requires labelled ==> a.it.traceId.Some? && b.it.traceId.Some? && a.it.traceId != b.it.traceId
    ensures StandsBefore(labelled, a.it, b.it)
  {
    var ka, kb := KeyOf(labelled, a.it), KeyOf(labelled, b.it);
    CompareKeysTotalOrder(ka, kb, ka);
    if labelled {
      CompareLabelsTotalOrder(a.it.traceId.value, b.it.traceId.value, a.it.traceId.value);
    } else {
      CompareStrLaws(ka.from, kb.from);
      CompareStrLaws(ka.to, kb.to);
    }
  }

  lemma RankedUsable(items: seq<InternalTx>, txHash: string)
    ensures Labelled(Its(Group(ValueMoves(items), txHash))) <==> UsableLabels(RankedTraces(items, txHash))
  {
    var moves := ValueMoves(items);
    MapPermutation(ItOf(), Ranked(moves, txHash), Group(moves, txHash));
    LabelledPermutation(Its(Group(moves, txHash)), RankedTraces(items, txHash));
    UsableMeans(RankedTraces(items, txHash));
  }

  // Ranks follow the labels where all traces of the transaction have one, and sender, receiver and value
  // where not.
  lemma RanksFollow(items: seq<InternalTx>, txHash: string, m: nat, n: nat)
    requires m < n < |RankedTraces(items, txHash)|
    ensures var its := RankedTraces(items, txHash);
      && its[m].to.Some? && its[n].to.Some?
      && StandsBefore(UsableLabels(its), its[m], its[n])
  {
    var moves := ValueMoves(items);
    var group, s := Group(moves, txHash), Ranked(moves, txHash);
    var labelled := Labelled(Its(group));
    RankedUsable(items, txHash);
    RankedMembers(moves, txHash);
    MovesOf(items, s[m]);
    MovesOf(items, s[n]);
    MoveOrderIsComparator(labelled);
    SortOrdered(MoveOrder(labelled), group);
    assert !MoveOrder(labelled)(s[n], s[m]);
    NotAfterStands(labelled, s[m], s[n]);
  }

  lemma MovesOf(items: seq<InternalTx>, m: Move)
    requires m in ValueMoves(items)
    ensures MovesValue(m.it)
  {
    var i :| 0 <= i < |ValueMoves(items)| && ValueMoves(items)[i] == m;
  }

  lemma MoveTells(it: InternalTx, n: nat, e: Event)
    requires MovesValue(it)
    ensures e == InternalEvent(it, n) <==> TellsTrace(e, it, n)
  {
  }

  // The internal events of a page are exactly what the traces tell that moved value, numbered from
  // -1000 down by their rank in the transaction.
  lemma InternalEventsTell(items: seq<InternalTx>, e: Event)
    ensures e in InternalEvents(ValueMoves(items)) <==> TellsRanked(items, e)
  {
    var moves, h := ValueMoves(items), e.key.txHash;
    assert Distinct(moves);
    InternalEventsMembers(moves, e);
    RankedMembers(moves, h);
    forall n | 0 <= n < |Ranked(moves, h)|
      ensures e == InternalEvent(Ranked(moves, h)[n].it, n) <==> TellsTrace(e, RankedTraces(items, h)[n], n)
    {
      assert Ranked(moves, h)[n] in Ranked(moves, h);
      MovesOf(items, Ranked(moves, h)[n]);
      MoveTells(Ranked(moves, h)[n].it, n, e);
    }
  }

  ghost predicate TellsRanked(items: seq<InternalTx>, e: Event) {
    exists n :: 0 <= n < |RankedTraces(items, e.key.txHash)| && TellsTrace(e, RankedTraces(items, e.key.txHash)[n], n)
  }

  // ------------------------------------------------------------------ token rows

  predicate TellsToken(e: Event, r: Erc20Transfer, receipt: Receipt) {
    && e.kind == Erc20TransferKind && e.amount == r.value && e.key.token == Erc20Token(Lower(r.contract))
    && e.key.txHash == Lower(r.hash) && e.block == r.block && e.time == r.time
    && e.from == Lower(r.from) && e.to == Lower(r.to) && e.txFrom == receipt.from && e.txTo == receipt.to
  }

  // The row tells the event, under the index of a log that its own transfer emitted.
  ghost predicate TellsOwnLog(e: Event, r: Erc20Transfer, receipts: map<string, Receipt>)
    requires IsAddress(r.from) && IsAddress(r.to)
  {
    && Lower(r.hash) in receipts && TellsToken(e, r, receipts[Lower(r.hash)])
    && e.key.logIndex >= 0 && HasOwnLog(r, receipts, e.key.logIndex)
  }

  lemma Erc20EventTells(rows: seq<Erc20Transfer>, receipts: map<string, Receipt>, e: Event) returns (r: Erc20Transfer)
    requires Addressed(rows) && LogsOnce(receipts) && TransfersEmitted(receipts) && Erc20EventsOf(rows, receipts).Ok?
    requires e in Erc20EventsOf(rows, receipts).value
    ensures r in rows && IsAddress(r.from) && IsAddress(r.to) && TellsOwnLog(e, r, receipts)
  {
    Erc20EventsMembers(rows, receipts, e);
    var i :| 0 <= i < |rows| && Lower(rows[i].hash) in receipts
      && e == LogEvent(ClassOf(rows[i]), Assigned(rows, receipts).value[i], rows[i].block, rows[i].time,
                       receipts[Lower(rows[i].hash)]);
    MatchingFindsLogs(rows, receipts);
    assert HasOwnLog(rows[i], receipts, Assigned(rows, receipts).value[i]);
    r := rows[i];
  }

  lemma Erc20RowTold(rows: seq<Erc20Transfer>, receipts: map<string, Receipt>, i: nat) returns (e: Event)
    requires Addressed(rows) && LogsOnce(receipts) && TransfersEmitted(receipts) && Erc20EventsOf(rows, receipts).Ok?
    requires i < |rows|
    ensures e in Erc20EventsOf(rows, receipts).value && TellsOwnLog(e, rows[i], receipts)
  {
    GivenMatches(rows, receipts, i);
    MatchingFindsLogs(rows, receipts);
    assert HasOwnLog(rows[i], receipts, Assigned(rows, receipts).value[i]);
    e := LogEvent(ClassOf(rows[i]), Assigned(rows, receipts).value[i], rows[i].block, rows[i].time,
                  receipts[Lower(rows[i].hash)]);
    Erc20EventsMembers(rows, receipts, e);
  }

  // ------------------------------------------------------------------ opening balances

  predicate TellsOpening(e: Event, tracked: string, a: Anchor) {
    && e.key.txHash == AnchorTxHash(tracked, a.block) && e.key.logIndex == -3
    && e.kind == OpeningBalance && e.amount == a.balance(e.key.token) > 0
    && e.from == "0x0000000000000000000000000000000000000000" == e.txFrom
    && e.to == Lower(tracked) && e.txTo == Some(Lower(tracked)) && e.block == a.block && e.time == a.time
  }

  // An opening is stored under its address, letters of either case, and its block, and no other's.
  lemma OpeningKeysDiffer(a: string, m: nat, b: string, n: nat)
    ensures AnchorTxHash(a, m) == AnchorTxHash(b, n) <==> Lower(a) == Lower(b) && m == n
  {
    if AnchorTxHash(a, m) == AnchorTxHash(b, n) {
      AfterHead("anchor:", Lower(a) + ":" + Digits(m), AnchorTxHash(a, m));
      AfterHead("anchor:", Lower(b) + ":" + Digits(n), AnchorTxHash(b, n));
      LastColon(Lower(a), Digits(m), Lower(b), Digits(n));
      ValueDigits(m);
      ValueDigits(n);
    }
  }

  lemma AfterHead(head: string, tail: string, s: string)
    requires s == head + tail
    ensures s[|head|..] == tail
  {
  }

  lemma ColonAt(x: string, d: string, s: string)
    requires AllDigits(d) && s == x + ":" + d
    ensures |x| < |s| && s[|x|] == ':' && x == s[..|x|] && d == s[|x| + 1..]
    ensures forall k :: |x| < k < |s| ==> s[k] != ':'
  {
    forall k | |x| < k < |s| ensures s[k] != ':' {
      assert s[k] == d[k - |x| - 1];
    }
  }

  lemma LastColon(x: string, d: string, y: string, c: string)
    requires AllDigits(d) && AllDigits(c) && x + ":" + d == y + ":" + c
    ensures x == y && d == c
  {
    var s := x + ":" + d;
    ColonAt(x, d, s);
    ColonAt(y, c, s);
    assert |x| == |y|;
  }

  // ------------------------------------------------------------------ every stored row

  // The chain's token rows name their parties by addresses, and its transfers emitted their logs.
  ghost predicate TokensOnChain(chain: Chain) {
    LogsOnce(chain.receipts) && TransfersEmitted(chain.receipts) && forall b: nat :: Addressed(chain.erc20(b))
  }

  // Some row of the chain tells the event.
  ghost predicate ToldByChain(cfg: Config, chain: Chain, e: Event) {
    if cfg.stream == Erc20Stream then
      exists r :: r in chain.erc20(e.block) && IsAddress(r.from) && IsAddress(r.to) && TellsOwnLog(e, r, chain.receipts)
    else
      || (exists tx :: tx in chain.native(e.block) && TellsNative(e, tx, FullContext(cfg, chain)))
      || (chain.hasInternal
          && exists t, n: nat :: t in chain.traces(e.block) && TellsTrace(e, t.row, n))
  }

  lemma MoveServed(items: seq<InternalTx>, m: Move)
    requires m in ValueMoves(items)
    ensures m.it in items
  {
    var i :| 0 <= i < |ValueMoves(items)| && ValueMoves(items)[i] == m;
    ValueMovesIts(items, 0);
    FilterMembers(MovesValue, items);
    assert Its(ValueMoves(items))[i] == m.it;
  }

  lemma RankedServed(items: seq<InternalTx>, txHash: string, n: nat)
    requires n < |RankedTraces(items, txHash)|
    ensures RankedTraces(items, txHash)[n] in items
  {
    var moves := ValueMoves(items);
    RankedMembers(moves, txHash);
    assert Ranked(moves, txHash)[n] in Ranked(moves, txHash);
    MoveServed(items, Ranked(moves, txHash)[n]);
  }

  lemma TraceTold(traces: seq<Trace>, provider: string, e: Event)
    requires e in InternalEvents(ValueMoves(Views(traces, provider)))
    ensures exists t, n: nat :: t in traces && TellsTrace(e, t.row, n)
  {
    var items := Views(traces, provider);
    InternalEventsTell(items, e);
    var n: nat :| n < |RankedTraces(items, e.key.txHash)| && TellsTrace(e, RankedTraces(items, e.key.txHash)[n], n);
    var it := RankedTraces(items, e.key.txHash)[n];
    RankedServed(items, e.key.txHash, n);
    ServedTrace(traces, provider, it);
    var t :| t in traces && View(t, provider) == it;
    assert TellsTrace(e, t.row, n);
  }

  lemma CanonicalTold(cfg: Config, chain: Chain, e: Event)
    requires WellFormed(cfg, chain) && TokensOnChain(chain) && Canonical(cfg, chain, e.block, e)
    ensures ToldByChain(cfg, chain, e)
  {
    var b := e.block;
    FeesOfBlock(cfg, chain, b);
    if cfg.stream == Erc20Stream {
      var r := Erc20EventTells(chain.erc20(b), chain.receipts, e);
    } else {
      assert Erc20Events([]) == [];
      if e in NativeEvents(chain.native(b), FullContext(cfg, chain)) {
        NativeEventsTell(chain.native(b), FullContext(cfg, chain), e);
      } else {
        assert ValueMoves([]) == [];
        TraceTold(chain.traces(b), chain.mainProvider, e);
      }
    }
  }

  // Over every interleaving of jobs on a concrete chain: each stored row tells, field by field, the
  // opening balance or one row of the chain, which tells nothing else under that kind.
  lemma StoredRowsTell(cfg: Config, chain: Chain, anchor: Option<Anchor>, s: State, steps: seq<Step>, k: Key)
    requires WellFormed(cfg, chain) && TokensOnChain(chain)
    requires Initial(s) && HonestRun(cfg, chain, SetupOf(cfg, chain, anchor), s, steps)
    ensures IsRun(SetupOf(cfg, chain, anchor), s, steps)
    ensures var store := After(SetupOf(cfg, chain, anchor), s, steps).store;
      k in store ==>
        && store[k].key == k
        && ((anchor.Some? && TellsOpening(store[k], cfg.tracked, anchor.value)) || ToldByChain(cfg, chain, store[k]))
  {
    StoredRowsMatchChain(cfg, chain, anchor, s, steps, k);
    var store := After(SetupOf(cfg, chain, anchor), s, steps).store;
    if k in store && Canonical(cfg, chain, store[k].block, store[k]) { CanonicalTold(cfg, chain, store[k]); }
  }

  // ------------------------------------------------------------------ every row of the chain

  // A block that the store covers after a run of honest jobs.
  ghost predicate CoveredBy(cfg: Config, chain: Chain, anchor: Option<Anchor>, s: State, steps: seq<Step>, b: nat) {
    && WellFormed(cfg, chain) && Initial(s) && HonestRun(cfg, chain, SetupOf(cfg, chain, anchor), s, steps)
    && IsRun(SetupOf(cfg, chain, anchor), s, steps)
    && Floor(SetupOf(cfg, chain, anchor)) < b <= After(SetupOf(cfg, chain, anchor), s, steps).cp.cursor
  }

  // In a covered block every transaction that moved value has its transfer stored, and each of the
  // account's own its fee.
  lemma NativeRowsAreStored(cfg: Config, chain: Chain, anchor: Option<Anchor>, s: State, steps: seq<Step>, b: nat,
                            tx: NativeTx, e: Event)
    requires CoveredBy(cfg, chain, anchor, s, steps, b) && cfg.stream == NativeStream
    requires tx in chain.native(b) && TellsNative(e, tx, FullContext(cfg, chain))
    ensures var store := After(SetupOf(cfg, chain, anchor), s, steps).store;
      e.key in store && store[e.key] == e
  {
    FeesOfBlock(cfg, chain, b);
    NativeEventsTell(chain.native(b), FullContext(cfg, chain), e);
    assert e.block == b;
    StoreMatchesChain(cfg, chain, anchor, s, steps, e);
  }

  lemma TokenInBlock(chain: Chain, b: nat, i: nat)
    requires RowsInBlocks(chain) && i < |chain.erc20(b)|
    ensures chain.erc20(b)[i].block == b
  {
    assert chain.erc20(b)[i] in chain.erc20(b);
  }

  lemma Erc20BlockGives(cfg: Config, chain: Chain, b: nat, i: nat) returns (e: Event)
    requires FeesOnChain(cfg, chain) && cfg.stream == Erc20Stream
    requires Addressed(chain.erc20(b)) && LogsOnce(chain.receipts) && TransfersEmitted(chain.receipts)
    requires i < |chain.erc20(b)| && Assigned(chain.erc20(b), chain.receipts).Ok?
    ensures Canonical(cfg, chain, b, e) && TellsOwnLog(e, chain.erc20(b)[i], chain.receipts)
  {
    e := Erc20RowTold(chain.erc20(b), chain.receipts, i);
  }

  // Every token transfer of a covered block is stored, under the index of its own log.
  lemma Erc20RowsAreStored(cfg: Config, chain: Chain, anchor: Option<Anchor>, s: State, steps: seq<Step>, b: nat,
                           i: nat)
      returns (e: Event)
    requires CoveredBy(cfg, chain, anchor, s, steps, b) && cfg.stream == Erc20Stream && TokensOnChain(chain)
    requires i < |chain.erc20(b)|
    ensures TellsOwnLog(e, chain.erc20(b)[i], chain.receipts)
    ensures var store := After(SetupOf(cfg, chain, anchor), s, steps).store;
      e.key in store && store[e.key] == e
  {
    ChainMatchedBelowCursor(cfg, chain, anchor, s, steps, b);
    e := Erc20BlockGives(cfg, chain, b, i);
    TokenInBlock(chain, b, i);
    StoreMatchesChain(cfg, chain, anchor, s, steps, e);
  }

  lemma MovingIsRanked(items: seq<InternalTx>, it: InternalTx) returns (n: nat)
    requires it in items && Moving(it, Lower(it.hash))
    ensures n < |RankedTraces(items, Lower(it.hash))| && RankedTraces(items, Lower(it.hash))[n] == it
  {
    var h := Lower(it.hash);
    RankedAreMoving(items, h);
    FilterMembers((x: InternalTx) => Moving(x, h), items);
    PermutationFacts(RankedTraces(items, h), Filter((x: InternalTx) => Moving(x, h), items));
    n :| n < |RankedTraces(items, h)| && RankedTraces(items, h)[n] == it;
  }

  lemma TraceGives(traces: seq<Trace>, provider: string, t: Trace) returns (e: Event, n: nat)
    requires t in traces && Moving(t.row, Lower(t.row.hash))
    ensures e in InternalEvents(ValueMoves(Views(traces, provider))) && TellsTrace(e, t.row, n)
  {
    var k :| 0 <= k < |traces| && traces[k] == t;
    var items := Views(traces, provider);
    assert items[k] == View(t, provider);
    n := MovingIsRanked(items, View(t, provider));
    e := InternalEvent(View(t, provider), n);
    MoveTells(View(t, provider), n, e);
    InternalEventsTell(items, e);
  }

  // Every trace of a covered block that moved value is stored, where traces are served at all.
  lemma TracesAreStored(cfg: Config, chain: Chain, anchor: Option<Anchor>, s: State, steps: seq<Step>, b: nat, t: Trace)
      returns (e: Event, n: nat)
    requires CoveredBy(cfg, chain, anchor, s, steps, b) && cfg.stream == NativeStream && chain.hasInternal
    requires t in chain.traces(b) && Moving(t.row, Lower(t.row.hash))
    ensures TellsTrace(e, t.row, n)
    ensures var store := After(SetupOf(cfg, chain, anchor), s, steps).store;
      e.key in store && store[e.key] == e
  {
    e, n := TraceGives(chain.traces(b), chain.mainProvider, t);
    TraceInBlock(chain, b, t);
    FeesOfBlock(cfg, chain, b);
    StoreMatchesChain(cfg, chain, anchor, s, steps, e);
  }
}
