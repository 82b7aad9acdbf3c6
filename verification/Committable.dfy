// What a run may store: cut at the cursor, the events derived from truncated, reordered and
// partly overlapping pages are exactly the canonical events of whole blocks.

module Committable {
  import opened Text
  import opened Types
  import opened Sequences
  import opened Normalize
  import opened Sentinels
  import opened LogIndex
  import opened ChainModel

  // ingest.ts:69-70: where one page lets the cursor go.
  function Candidate<R>(blockOf: R -> nat, items: seq<R>, to: int): int {
    if |items| >= PAGE_LIMIT && |items| > 0 then blockOf(items[|items| - 1]) - 1 else to
  }

  ghost predicate RowsAtBlock<R(!new)>(rowsAt: nat -> seq<R>, blockOf: R -> nat) {
    forall b: nat, r :: r in rowsAt(b) ==> blockOf(r) == b
  }

  lemma PageWhole<R(!new)>(rowsAt: nat -> seq<R>, blockOf: R -> nat, from: nat, to: int, items: seq<R>, upto: int)
    requires IsPage(rowsAt, blockOf, from, to, items) && upto <= to && upto <= Candidate(blockOf, items, to)
    ensures WholeThrough(rowsAt, blockOf, from, upto, items)
  {
  }

  lemma PageMembers<R(!new)>(rowsAt: nat -> seq<R>, blockOf: R -> nat, from: nat, to: int, items: seq<R>, upto: int,
                             r: R)
    requires IsPage(rowsAt, blockOf, from, to, items) && RowsAtBlock(rowsAt, blockOf)
    requires upto <= to && upto <= Candidate(blockOf, items, to)
    ensures r in items && blockOf(r) <= upto <==> from <= blockOf(r) <= upto && r in rowsAt(blockOf(r))
  {
    PageWhole(rowsAt, blockOf, from, to, items, upto);
    var b := blockOf(r);
    if from <= b <= upto {
      PermutationFacts(AtBlock(blockOf, items, b), rowsAt(b));
      FilterMembers(OnBlock(blockOf, b), items);
      assert r in AtBlock(blockOf, items, b) <==> r in rowsAt(b);
    }
    if r in items {
      var i :| 0 <= i < |items| && items[i] == r;
    }
  }

  // Up to a block, a page's rows are exactly the chain's.
  ghost predicate Covers<R(!new)>(rowsAt: nat -> seq<R>, blockOf: R -> nat, from: nat, upto: int, items: seq<R>) {
    forall r :: r in items && blockOf(r) <= upto <==> from <= blockOf(r) <= upto && r in rowsAt(blockOf(r))
  }

  lemma PageCovers<R(!new)>(rowsAt: nat -> seq<R>, blockOf: R -> nat, from: nat, to: int, items: seq<R>, upto: int)
    requires IsPage(rowsAt, blockOf, from, to, items) && RowsAtBlock(rowsAt, blockOf)
    requires upto <= to && upto <= Candidate(blockOf, items, to)
    ensures Covers(rowsAt, blockOf, from, upto, items)
  {
    forall r ensures r in items && blockOf(r) <= upto <==> from <= blockOf(r) <= upto && r in rowsAt(blockOf(r)) {
      PageMembers(rowsAt, blockOf, from, to, items, upto, r);
    }
  }

  lemma NativeRowsAt(cfg: Config, chain: Chain)
    requires WellFormed(cfg, chain)
    ensures RowsAtBlock(chain.native, NativeBlock()) && RowsAtBlock(chain.erc20, Erc20Block())
  {
  }

  // ------------------------------------------------------------------ native rows

  ghost predicate RowGives(tx: NativeTx, ctx: Context, e: Event) {
    FeeKnown(tx, ctx) && (e in NativeTransferOf(tx) || e in GasOf(tx, ctx))
  }

  lemma NativeEventRow(txs: seq<NativeTx>, ctx: Context, e: Event)
    requires FeesKnown(txs, ctx)
    ensures e in NativeEvents(txs, ctx) <==> exists tx :: tx in txs && RowGives(tx, ctx, e)
  {
    NativeEventsMembers(txs, ctx, e);
    if tx :| tx in txs && RowGives(tx, ctx, e) {
      var i :| 0 <= i < |txs| && txs[i] == tx;
    }
    if e in NativeEvents(txs, ctx) {
      var i :| 0 <= i < |txs| && (e in NativeTransferOf(txs[i]) || e in GasOf(txs[i], ctx));
      assert txs[i] in txs && RowGives(txs[i], ctx, e);
    }
  }

  lemma RowGivesBlock(tx: NativeTx, ctx: Context, e: Event)
    requires RowGives(tx, ctx, e)
    ensures e.block == tx.block && e.time == tx.time && e.key.txHash == Lower(tx.hash)
  {
  }

  lemma RowGivesSame(cfg: Config, chain: Chain, receipts: map<string, Receipt>, tx: NativeTx, e: Event)
    requires TruthfulReceipts(receipts, chain) && FeeKnown(tx, Context(cfg.tracked, cfg.feeStrategy, receipts))
    ensures RowGives(tx, Context(cfg.tracked, cfg.feeStrategy, receipts), e)
            <==> RowGives(tx, FullContext(cfg, chain), e)
  {
  }

  lemma NativeForward(cfg: Config, chain: Chain, from: nat, native: seq<NativeTx>, receipts: map<string, Receipt>,
                      upto: int, e: Event)
    requires FeesOnChain(cfg, chain) && TruthfulReceipts(receipts, chain)
    requires Covers(chain.native, NativeBlock(), from, upto, native)
    requires FeesKnown(native, Context(cfg.tracked, cfg.feeStrategy, receipts))
    requires e in NativeEvents(native, Context(cfg.tracked, cfg.feeStrategy, receipts)) && e.block <= upto
    requires FeesKnown(chain.native(e.block), FullContext(cfg, chain))
    ensures from <= e.block && e in NativeEvents(chain.native(e.block), FullContext(cfg, chain))
  {
    var ctx := Context(cfg.tracked, cfg.feeStrategy, receipts);
    NativeEventRow(native, ctx, e);
    var tx :| tx in native && RowGives(tx, ctx, e);
    RowGivesBlock(tx, ctx, e);
    RowGivesSame(cfg, chain, receipts, tx, e);
    assert NativeBlock()(tx) <= upto;
    NativeEventRow(chain.native(e.block), FullContext(cfg, chain), e);
  }

  lemma NativeBackward(cfg: Config, chain: Chain, from: nat, native: seq<NativeTx>, receipts: map<string, Receipt>,
                       upto: int, e: Event)
    requires FeesOnChain(cfg, chain) && TruthfulReceipts(receipts, chain)
    requires Covers(chain.native, NativeBlock(), from, upto, native)
    requires FeesKnown(native, Context(cfg.tracked, cfg.feeStrategy, receipts))
    requires FeesKnown(chain.native(e.block), FullContext(cfg, chain))
    requires from <= e.block <= upto && e in NativeEvents(chain.native(e.block), FullContext(cfg, chain))
    ensures e in NativeEvents(native, Context(cfg.tracked, cfg.feeStrategy, receipts))
  {
    var full := FullContext(cfg, chain);
    NativeEventRow(chain.native(e.block), full, e);
    var tx :| tx in chain.native(e.block) && RowGives(tx, full, e);
    RowGivesBlock(tx, full, e);
    assert NativeBlock()(tx) == e.block;
    assert tx in native;
    FeeOfRow(native, Context(cfg.tracked, cfg.feeStrategy, receipts), tx);
    RowGivesSame(cfg, chain, receipts, tx, e);
    NativeEventRow(native, Context(cfg.tracked, cfg.feeStrategy, receipts), e);
  }

  lemma FeeOfRow(txs: seq<NativeTx>, ctx: Context, tx: NativeTx)
    requires FeesKnown(txs, ctx) && tx in txs
    ensures FeeKnown(tx, ctx)
  {
  }

  // ------------------------------------------------------------------ internal rows

  function MoveOf(txHash: string): InternalTx -> bool {
    (it: InternalTx) => Lower(it.hash) == txHash && MovesValue(it)
  }

  // The value moves of a transaction, among any rows.
  lemma GroupIts(items: seq<InternalTx>, txHash: string)
    ensures Its(Group(ValueMoves(items), txHash)) == Filter(MoveOf(txHash), items)
  {
    var hash := (it: InternalTx) => Lower(it.hash) == txHash;
    ValueMovesIts(items, 0);
    MapFilter(ItOf(), hash, InTx(txHash), ValueMoves(items));
    FilterTwice(MovesValue, hash, MoveOf(txHash), items);
  }

  lemma ViewsOfTx(traces: seq<Trace>, provider: string, txHash: string)
    ensures Filter(MoveOf(txHash), Views(traces, provider))
         == Views(Filter(TraceOf(txHash), traces), provider)
  {
    MapFilter(ViewBy(provider), MoveOf(txHash), TraceOf(txHash), traces);
  }

  // Rows that hold, of a transaction, a permutation of all its traces as a provider serves them.
  ghost predicate HoldsTx(traces: seq<Trace>, provider: string, items: seq<InternalTx>, txHash: string) {
    multiset(Filter(MoveOf(txHash), items)) == multiset(Views(traces, provider))
  }

  lemma TracesOneTransaction(cfg: Config, chain: Chain, b: nat, txHash: string, provider: string)
    requires WellFormed(cfg, chain)
    ensures OneTransaction(txHash, b, chain.time(b), Views(TracesOf(chain, b, txHash), provider))
  {
    var ts := TracesOf(chain, b, txHash);
    FilterMembers(TraceOf(txHash), chain.traces(b));
    forall i | 0 <= i < |ts| ensures ts[i] in chain.traces(b) && TraceOf(txHash)(ts[i]) {
      assert ts[i] in ts;
    }
  }

  // Whole transactions rank the same, whoever served them.
  lemma RankedSame(cfg: Config, chain: Chain, b: nat, txHash: string, p: string, items: seq<InternalTx>,
                   q: string, items': seq<InternalTx>)
    requires WellFormed(cfg, chain) && p in chain.providers && q in chain.providers
    requires HoldsTx(TracesOf(chain, b, txHash), p, items, txHash)
    requires HoldsTx(TracesOf(chain, b, txHash), q, items', txHash)
    ensures RankedEvents(Group(ValueMoves(items), txHash)) == RankedEvents(Group(ValueMoves(items'), txHash))
  {
    GroupIts(items, txHash);
    GroupIts(items', txHash);
    TracesOneTransaction(cfg, chain, b, txHash, p);
    FailoverIrrelevant(txHash, b, chain.time(b), TracesOf(chain, b, txHash), p, q,
                       Group(ValueMoves(items), txHash), Group(ValueMoves(items'), txHash));
  }

  lemma BlockHoldsTx(chain: Chain, b: nat, txHash: string, provider: string)
    ensures HoldsTx(TracesOf(chain, b, txHash), provider, Views(chain.traces(b), provider), txHash)
  {
    ViewsOfTx(chain.traces(b), provider, txHash);
  }

  lemma ServedAtBlock(cfg: Config, chain: Chain, provider: string)
    requires WellFormed(cfg, chain)
    ensures RowsAtBlock(ServedTraces(chain, provider), InternalBlock())
  {
    forall b: nat, r | r in ServedTraces(chain, provider)(b) ensures r.block == b {
      var i :| 0 <= i < |chain.traces(b)| && Views(chain.traces(b), provider)[i] == r;
      assert chain.traces(b)[i] in chain.traces(b);
    }
  }

  // A page that is whole through block b holds every transaction of that block whole.
  lemma PageHoldsTx(cfg: Config, chain: Chain, p: string, from: nat, to: int, items: seq<InternalTx>, upto: int,
                    b: nat, txHash: string)
    requires WellFormed(cfg, chain) && ServedBy(chain, p, from, to, items)
    requires upto <= to && upto <= Candidate(InternalBlock(), items, to) && from <= b <= upto
    requires TracesOf(chain, b, txHash) != []
    ensures HoldsTx(TracesOf(chain, b, txHash), p, items, txHash)
  {
    var mine, here := MoveOf(txHash), OnBlock(InternalBlock(), b);
    var served := ServedTraces(chain, p);
    PageWhole(served, InternalBlock(), from, to, items, upto);
    ServedAtBlock(cfg, chain, p);
    FilterMembers(TraceOf(txHash), chain.traces(b));
    var t0 := TracesOf(chain, b, txHash)[0];
    assert t0 in TracesOf(chain, b, txHash) && t0 in chain.traces(b);
    forall it | it in items && mine(it) ensures here(it) {
      InPageInBlock(cfg, chain, p, from, to, items, it);
      var t :| t in chain.traces(it.block) && View(t, p) == it;
      assert Lower(t.row.hash) == Lower(t0.row.hash);
    }
    FilterFilter(mine, here, items);
    FilterPermutation(mine, AtBlock(InternalBlock(), items, b), served(b));
    BlockHoldsTx(chain, b, txHash, p);
  }

  // Every row of a page is a row of its block, truncated or not.
  lemma InPageInBlock(cfg: Config, chain: Chain, p: string, from: nat, to: int, items: seq<InternalTx>, it: InternalTx)
    requires WellFormed(cfg, chain) && ServedBy(chain, p, from, to, items) && it in items
    ensures exists t :: t in chain.traces(it.block) && View(t, p) == it
  {
    var served := ServedTraces(chain, p);
    var i :| 0 <= i < |items| && items[i] == it;
    var b := it.block;
    FilterMembers(OnBlock(InternalBlock(), b), items);
    assert it in AtBlock(InternalBlock(), items, b);
    assert it in multiset(AtBlock(InternalBlock(), items, b));
    assert it in multiset(served(b));
    assert it in served(b);
    var j :| 0 <= j < |chain.traces(b)| && Views(chain.traces(b), p)[j] == it;
    assert chain.traces(b)[j] in chain.traces(b) && View(chain.traces(b)[j], p) == it;
  }

  lemma RankedFromGroup(items: seq<InternalTx>, e: Event)
    ensures e in InternalEvents(ValueMoves(items)) <==> e in RankedEvents(Group(ValueMoves(items), e.key.txHash))
  {
    var moves := ValueMoves(items);
    assert Distinct(moves);
    InternalEventsMembers(moves, e);
    var group := Group(moves, e.key.txHash);
    assert Ranked(moves, e.key.txHash) == Sort(Labelled(Its(group)), group);
  }

  lemma RankedEventOfTx(cfg: Config, chain: Chain, b: nat, txHash: string, p: string, items: seq<InternalTx>, e: Event)
    requires WellFormed(cfg, chain) && HoldsTx(TracesOf(chain, b, txHash), p, items, txHash)
    requires e in RankedEvents(Group(ValueMoves(items), txHash))
    ensures e.block == b && e.time == chain.time(b) && TracesOf(chain, b, txHash) != []
  {
    var group := Group(ValueMoves(items), txHash);
    GroupIts(items, txHash);
    TracesOneTransaction(cfg, chain, b, txHash, p);
    PermutationFacts(Its(group), Views(TracesOf(chain, b, txHash), p));
    var n :| 0 <= n < |group| && RankedEvents(group)[n] == e;
    SortedMembers(Labelled(Its(group)), group, n);
    var it := Sort(Labelled(Its(group)), group)[n].it;
    assert it in Views(TracesOf(chain, b, txHash), p);
  }

  // An event's row names its block and its transaction.
  lemma InternalEventRow(items: seq<InternalTx>, e: Event) returns (it: InternalTx)
    requires e in InternalEvents(ValueMoves(items))
    ensures it in items && MovesValue(it) && it.block == e.block && it.time == e.time && Lower(it.hash) == e.key.txHash
  {
    var moves := ValueMoves(items);
    var i :| 0 <= i < |moves| && InternalEvents(moves)[i] == e;
    ValueMovesIts(items, 0);
    FilterMembers(MovesValue, items);
    it := moves[i].it;
    assert Its(moves)[i] == it;
  }

  lemma TraceExists(chain: Chain, b: nat, txHash: string, t: Trace)
    requires t in chain.traces(b) && TraceOf(txHash)(t)
    ensures TracesOf(chain, b, txHash) != []
  {
    FilterMembers(TraceOf(txHash), chain.traces(b));
    assert t in TracesOf(chain, b, txHash);
  }

  lemma InternalCommit(cfg: Config, chain: Chain, p: string, from: nat, to: int, items: seq<InternalTx>, upto: int,
                       e: Event)
    requires WellFormed(cfg, chain) && p in chain.providers && ServedBy(chain, p, from, to, items)
    requires upto <= to && upto <= Candidate(InternalBlock(), items, to)
    ensures e in InternalEvents(ValueMoves(items)) && e.block <= upto
       <==> from <= e.block <= upto && e in InternalEvents(ValueMoves(Views(chain.traces(e.block), chain.mainProvider)))
  {
    var b, h := e.block, e.key.txHash;
    var whole := Views(chain.traces(b), chain.mainProvider);
    RankedFromGroup(items, e);
    RankedFromGroup(whole, e);
    if e in InternalEvents(ValueMoves(items)) && b <= upto {
      var it := InternalEventRow(items, e);
      InPageInBlock(cfg, chain, p, from, to, items, it);
      var t :| t in chain.traces(b) && View(t, p) == it;
      TraceExists(chain, b, h, t);
      var i :| 0 <= i < |items| && items[i] == it;
      PageHoldsTx(cfg, chain, p, from, to, items, upto, b, h);
      BlockHoldsTx(chain, b, h, chain.mainProvider);
      RankedSame(cfg, chain, b, h, p, items, chain.mainProvider, whole);
    }
    if from <= b <= upto && e in InternalEvents(ValueMoves(whole)) {
      BlockHoldsTx(chain, b, h, chain.mainProvider);
      RankedEventOfTx(cfg, chain, b, h, chain.mainProvider, whole, e);
      PageHoldsTx(cfg, chain, p, from, to, items, upto, b, h);
      RankedSame(cfg, chain, b, h, p, items, chain.mainProvider, whole);
    }
  }

  // ------------------------------------------------------------------ erc20 rows

  // The event of a log: its class, its index and its transaction's receipt and block.
  function LogEvent(c: Class, index: nat, block: nat, time: int, receipt: Receipt): Event {
    Event(Key(c.txHash, index, Erc20Token(c.contract)), Erc20TransferKind, c.from, c.to, c.value, block, time,
          receipt.from, receipt.to)
  }

  ghost predicate GivesLogEvent(rows: seq<Erc20Transfer>, indexes: seq<nat>, receipts: map<string, Receipt>, c: Class,
                                e: Event)
    requires |rows| == |indexes|
  {
    && c.txHash in receipts && e.key.logIndex >= 0 && e.key.logIndex in Given(rows, indexes, c)
    && e == LogEvent(c, e.key.logIndex, e.block, e.time, receipts[c.txHash])
  }

  // The rows of a transaction are all in one block.
  ghost predicate RowsDated(rows: seq<Erc20Transfer>, c: Class, block: nat, time: int) {
    forall r :: r in rows && ClassOf(r) == c ==> r.block == block && r.time == time
  }

  lemma Erc20EventsMembers(rows: seq<Erc20Transfer>, receipts: map<string, Receipt>, e: Event)
    requires Erc20EventsOf(rows, receipts).Ok?
    ensures e in Erc20EventsOf(rows, receipts).value <==>
            exists i :: 0 <= i < |rows| && Lower(rows[i].hash) in receipts
              && e == LogEvent(ClassOf(rows[i]), Assigned(rows, receipts).value[i], rows[i].block, rows[i].time,
                               receipts[Lower(rows[i].hash)])
  {
    var idx := Assigned(rows, receipts).value;
    var events := Erc20EventsOf(rows, receipts).value;
    forall i | 0 <= i < |rows|
      ensures Lower(rows[i].hash) in receipts
      ensures events[i] ==
              LogEvent(ClassOf(rows[i]), idx[i], rows[i].block, rows[i].time, receipts[Lower(rows[i].hash)])
    {
      GivenMatches(rows, receipts, i);
    }
    if e in events {
      var i :| 0 <= i < |events| && events[i] == e;
    }
  }

  lemma Erc20ByClass(rows: seq<Erc20Transfer>, receipts: map<string, Receipt>, c: Class, block: nat, time: int,
                     e: Event)
    requires Erc20EventsOf(rows, receipts).Ok? && RowsDated(rows, c, block, time)
    requires e.key.txHash == c.txHash && e.key.token == Erc20Token(c.contract) && e.from == c.from && e.to == c.to
             && e.amount == c.value
    ensures e in Erc20EventsOf(rows, receipts).value <==>
            && GivesLogEvent(rows, Assigned(rows, receipts).value, receipts, c, e) && e.block == block && e.time == time
  {
    Erc20EventsMembers(rows, receipts, e);
    var idx := Assigned(rows, receipts).value;
    if e in Erc20EventsOf(rows, receipts).value {
      var i :| 0 <= i < |rows| && Lower(rows[i].hash) in receipts
        && e == LogEvent(ClassOf(rows[i]), idx[i], rows[i].block, rows[i].time, receipts[Lower(rows[i].hash)]);
      assert ClassOf(rows[i]) == c && rows[i] in rows;
      assert idx[i] in Given(rows, idx, c);
    }
    if GivesLogEvent(rows, idx, receipts, c, e) && e.block == block && e.time == time {
      var i :| 0 <= i < |rows| && ClassOf(rows[i]) == c && idx[i] == e.key.logIndex;
      assert rows[i] in rows;
    }
  }

  lemma {:induction false} CountIsFilter(rows: seq<Erc20Transfer>, c: Class)
    ensures CountClass(rows, c) == |Filter(InClass(c), rows)|
  {
    if rows != [] {
      var n := |rows| - 1;
      CountIsFilter(rows[..n], c);
      FilterPush(InClass(c), rows[..n], rows[n]);
      assert rows == rows[..n] + [rows[n]];
    }
  }

  function InClass(c: Class): Erc20Transfer -> bool { (r: Erc20Transfer) => ClassOf(r) == c }

  lemma SameCount(rows: seq<Erc20Transfer>, rows': seq<Erc20Transfer>, c: Class)
    requires multiset(Filter(InClass(c), rows)) == multiset(Filter(InClass(c), rows'))
    ensures CountClass(rows, c) == CountClass(rows', c)
  {
    CountIsFilter(rows, c);
    CountIsFilter(rows', c);
    PermutationFacts(Filter(InClass(c), rows), Filter(InClass(c), rows'));
  }

  lemma ClassInBlock(cfg: Config, chain: Chain, from: nat, to: int, rows: seq<Erc20Transfer>, b: nat, c: Class,
                     r0: Erc20Transfer)
    requires WellFormed(cfg, chain) && IsPage(chain.erc20, Erc20Block(), from, to, rows)
    requires r0 in chain.erc20(b) && Lower(r0.hash) == c.txHash
    ensures RowsDated(rows, c, b, chain.time(b)) && RowsDated(chain.erc20(b), c, b, chain.time(b))
  {
    forall r | r in rows && ClassOf(r) == c ensures r.block == b && r.time == chain.time(b) {
      Erc20InBlock(from, to, chain, rows, r);
      assert Lower(r.hash) == Lower(r0.hash);
    }
  }

  // A page that is whole through block b holds that block's classes whole.
  lemma ClassWhole(chain: Chain, from: nat, to: int, rows: seq<Erc20Transfer>, upto: int, b: nat, c: Class)
    requires IsPage(chain.erc20, Erc20Block(), from, to, rows)
    requires upto <= to && upto <= Candidate(Erc20Block(), rows, to) && from <= b <= upto
    requires RowsDated(rows, c, b, chain.time(b))
    ensures CountClass(rows, c) == CountClass(chain.erc20(b), c)
  {
    PageWhole(chain.erc20, Erc20Block(), from, to, rows, upto);
    FilterFilter(InClass(c), OnBlock(Erc20Block(), b), rows);
    FilterPermutation(InClass(c), AtBlock(Erc20Block(), rows, b), chain.erc20(b));
    SameCount(rows, chain.erc20(b), c);
  }

  lemma Erc20InBlock(from: nat, to: int, chain: Chain, rows: seq<Erc20Transfer>, r: Erc20Transfer)
    requires IsPage(chain.erc20, Erc20Block(), from, to, rows) && r in rows
    ensures r in chain.erc20(r.block)
  {
    var i :| 0 <= i < |rows| && rows[i] == r;
    FilterMembers(OnBlock(Erc20Block(), r.block), rows);
    assert r in AtBlock(Erc20Block(), rows, r.block);
    assert r in multiset(AtBlock(Erc20Block(), rows, r.block));
    assert r in multiset(chain.erc20(r.block));
  }

  // What the cut at `upto` keeps of an honest erc20 page.
  ghost predicate Erc20Cut(cfg: Config, chain: Chain, from: nat, to: int, rows: seq<Erc20Transfer>,
                           receipts: map<string, Receipt>, upto: int) {
    && WellFormed(cfg, chain) && TruthfulReceipts(receipts, chain)
    && IsPage(chain.erc20, Erc20Block(), from, to, rows) && Assigned(rows, receipts).Ok?
    && upto <= to && upto <= Candidate(Erc20Block(), rows, to)
  }

  lemma CutRow(cfg: Config, chain: Chain, from: nat, to: int, rows: seq<Erc20Transfer>,
               receipts: map<string, Receipt>, upto: int, r: Erc20Transfer)
    requires Erc20Cut(cfg, chain, from, to, rows, receipts, upto)
    ensures r in rows && r.block <= upto <==> from <= r.block <= upto && r in chain.erc20(r.block)
  {
    NativeRowsAt(cfg, chain);
    PageMembers(chain.erc20, Erc20Block(), from, to, rows, upto, r);
  }

  // A row of a block below the cut: its class is whole in the page, and its receipt was fetched.
  lemma CutClass(cfg: Config, chain: Chain, from: nat, to: int, rows: seq<Erc20Transfer>,
                 receipts: map<string, Receipt>, upto: int, r: Erc20Transfer)
    requires Erc20Cut(cfg, chain, from, to, rows, receipts, upto)
    requires from <= r.block <= upto && r in chain.erc20(r.block)
    ensures CountClass(rows, ClassOf(r)) == CountClass(chain.erc20(r.block), ClassOf(r))
    ensures RowsDated(rows, ClassOf(r), r.block, chain.time(r.block))
    ensures RowsDated(chain.erc20(r.block), ClassOf(r), r.block, chain.time(r.block))
    ensures ClassOf(r).txHash in receipts && ClassOf(r).txHash in chain.receipts
    ensures receipts[ClassOf(r).txHash] == chain.receipts[ClassOf(r).txHash]
    ensures CountClass(rows, ClassOf(r)) <= |MatchIndexes(receipts[ClassOf(r).txHash], ClassOf(r))|
  {
    CutRow(cfg, chain, from, to, rows, receipts, upto, r);
    ClassInBlock(cfg, chain, from, to, rows, r.block, ClassOf(r), r);
    ClassWhole(chain, from, to, rows, upto, r.block, ClassOf(r));
    var i :| 0 <= i < |rows| && rows[i] == r;
    GivenMatches(rows, receipts, i);
    LogsNumberedSub(receipts, chain);
    GivenIsLowest(rows, receipts, ClassOf(r));
  }

  // Blocks that a successful run passes have a log for every row: a row that never matches
  // wedges the stream instead of being skipped.
  lemma PassedBlocksMatch(cfg: Config, chain: Chain, from: nat, to: int, rows: seq<Erc20Transfer>,
                          receipts: map<string, Receipt>, upto: int, b: nat)
    requires Erc20Cut(cfg, chain, from, to, rows, receipts, upto) && from <= b <= upto
    ensures Assigned(chain.erc20(b), chain.receipts).Ok?
  {
    forall j | 0 <= j < |chain.erc20(b)|
      ensures ClassOf(chain.erc20(b)[j]).txHash in chain.receipts
      ensures CountClass(chain.erc20(b), ClassOf(chain.erc20(b)[j])) <=
              |MatchIndexes(chain.receipts[ClassOf(chain.erc20(b)[j]).txHash], ClassOf(chain.erc20(b)[j]))|
    {
      var r := chain.erc20(b)[j];
      assert r in chain.erc20(b);
      NativeRowsAt(cfg, chain);
      assert Erc20Block()(r) == b;
      CutClass(cfg, chain, from, to, rows, receipts, upto, r);
    }
    SucceedsIffEnoughLogs(chain.erc20(b), chain.receipts);
  }

  function ClassOfEvent(e: Event): Class
    requires e.key.token.Erc20Token? && e.amount >= 0
  {
    Class(e.key.txHash, e.key.token.contract, e.from, e.to, e.amount)
  }

  lemma Erc20EventShape(rows: seq<Erc20Transfer>, receipts: map<string, Receipt>, e: Event) returns (r: Erc20Transfer)
    requires Erc20EventsOf(rows, receipts).Ok? && e in Erc20EventsOf(rows, receipts).value
    ensures e.key.token.Erc20Token? && e.amount >= 0 && e.key.logIndex >= 0
    ensures r in rows && ClassOf(r) == ClassOfEvent(e) && r.block == e.block && r.time == e.time
    ensures ClassOfEvent(e).txHash in receipts
  {
    Erc20EventsMembers(rows, receipts, e);
    var i :| 0 <= i < |rows| && Lower(rows[i].hash) in receipts
      && e == LogEvent(ClassOf(rows[i]), Assigned(rows, receipts).value[i], rows[i].block, rows[i].time,
                       receipts[Lower(rows[i].hash)]);
    r := rows[i];
  }

  lemma Erc20Forward(cfg: Config, chain: Chain, from: nat, to: int, rows: seq<Erc20Transfer>,
                     receipts: map<string, Receipt>, upto: int, e: Event)
    requires Erc20Cut(cfg, chain, from, to, rows, receipts, upto)
    requires e in Erc20EventsOf(rows, receipts).value && e.block <= upto
    ensures from <= e.block && Assigned(chain.erc20(e.block), chain.receipts).Ok?
    ensures e in Erc20EventsOf(chain.erc20(e.block), chain.receipts).value
  {
    var r := Erc20EventShape(rows, receipts, e);
    CutRow(cfg, chain, from, to, rows, receipts, upto, r);
    PassedBlocksMatch(cfg, chain, from, to, rows, receipts, upto, e.block);
    Erc20Same(cfg, chain, from, to, rows, receipts, upto, e, r);
  }

  lemma Erc20Backward(cfg: Config, chain: Chain, from: nat, to: int, rows: seq<Erc20Transfer>,
                      receipts: map<string, Receipt>, upto: int, e: Event)
    requires Erc20Cut(cfg, chain, from, to, rows, receipts, upto) && from <= e.block <= upto
    requires Assigned(chain.erc20(e.block), chain.receipts).Ok?
    requires e in Erc20EventsOf(chain.erc20(e.block), chain.receipts).value
    ensures e in Erc20EventsOf(rows, receipts).value
  {
    var r := Erc20EventShape(chain.erc20(e.block), chain.receipts, e);
    Erc20Same(cfg, chain, from, to, rows, receipts, upto, e, r);
  }

  lemma Erc20Same(cfg: Config, chain: Chain, from: nat, to: int, rows: seq<Erc20Transfer>,
                  receipts: map<string, Receipt>, upto: int, e: Event, r: Erc20Transfer)
    requires Erc20Cut(cfg, chain, from, to, rows, receipts, upto) && from <= e.block <= upto
    requires r in chain.erc20(e.block) && r.block == e.block
    requires e.key.token.Erc20Token? && e.amount >= 0 && ClassOf(r) == ClassOfEvent(e)
    requires Assigned(chain.erc20(e.block), chain.receipts).Ok?
    ensures e in Erc20EventsOf(rows, receipts).value <==> e in Erc20EventsOf(chain.erc20(e.block), chain.receipts).value
  {
    var b, c := e.block, ClassOf(r);
    CutClass(cfg, chain, from, to, rows, receipts, upto, r);
    LogsNumberedSub(receipts, chain);
    GivenDependsOnCount(rows, chain.erc20(b), receipts, chain.receipts, c);
    Erc20ByClass(rows, receipts, c, b, chain.time(b), e);
    Erc20ByClass(chain.erc20(b), chain.receipts, c, b, chain.time(b), e);
  }

  lemma LogsNumberedSub(receipts: map<string, Receipt>, chain: Chain)
    requires TruthfulReceipts(receipts, chain) && LogsNumbered(chain.receipts)
    ensures LogsNumbered(receipts)
  {
  }
}
