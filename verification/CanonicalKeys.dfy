// The idempotency key names a canonical event: over the whole chain two canonical events of one
// tracked address never share a key.

module CanonicalKeys {
  import opened Text
  import opened Types
  import opened Normalize
  import opened Sentinels
  import opened LogIndex
  import opened ChainModel
  import opened Committable

  // Which row an event of block b comes from.
  ghost predicate FromNative(chain: Chain, b: nat, e: Event) {
    -2 <= e.key.logIndex <= -1 && e.key.token == NativeToken
    && exists r :: r in chain.native(b) && Lower(r.hash) == e.key.txHash
  }

  ghost predicate FromTrace(chain: Chain, b: nat, e: Event) {
    e.key.logIndex <= -1000 && e.key.token == NativeToken
    && exists t :: t in chain.traces(b) && Lower(t.row.hash) == e.key.txHash
  }

  ghost predicate FromErc20(chain: Chain, b: nat, e: Event) {
    e.key.token.Erc20Token? && e.key.logIndex >= 0
    && exists r :: r in chain.erc20(b) && Lower(r.hash) == e.key.txHash
  }

  lemma NativeRowKey(tx: NativeTx, ctx: Context, e: Event)
    requires RowGives(tx, ctx, e)
    ensures -2 <= e.key.logIndex <= -1 && e.key.token == NativeToken && e.key.txHash == Lower(tx.hash)
  {
  }

  lemma NativeInBlock(chain: Chain, b: nat, tx: NativeTx)
    requires RowsInBlocks(chain) && tx in chain.native(b)
    ensures tx.block == b && tx.time == chain.time(b)
  {
  }

  lemma NativeOrigin(cfg: Config, chain: Chain, b: nat, e: Event)
    requires RowsInBlocks(chain) && FeesOnChain(cfg, chain)
    requires FeesKnown(chain.native(b), FullContext(cfg, chain))
             && e in NativeEvents(chain.native(b), FullContext(cfg, chain))
    ensures FromNative(chain, b, e) && e.block == b && e.time == chain.time(b)
  {
    var ctx := FullContext(cfg, chain);
    NativeEventRow(chain.native(b), ctx, e);
    var tx :| tx in chain.native(b) && RowGives(tx, ctx, e);
    RowGivesBlock(tx, ctx, e);
    NativeRowKey(tx, ctx, e);
    NativeInBlock(chain, b, tx);
  }

  lemma TraceKey(items: seq<InternalTx>, e: Event)
    requires e in InternalEvents(ValueMoves(items))
    ensures e.key.logIndex <= -1000 && e.key.token == NativeToken
  {
    var i :| 0 <= i < |ValueMoves(items)| && InternalEvents(ValueMoves(items))[i] == e;
  }

  lemma ServedTrace(traces: seq<Trace>, provider: string, it: InternalTx)
    requires it in Views(traces, provider)
    ensures exists t :: t in traces && View(t, provider) == it
  {
    var k :| 0 <= k < |traces| && Views(traces, provider)[k] == it;
    assert traces[k] in traces && View(traces[k], provider) == it;
  }

  lemma TraceEventRow(traces: seq<Trace>, provider: string, e: Event) returns (t: Trace)
    requires e in InternalEvents(ValueMoves(Views(traces, provider)))
    ensures t in traces && Lower(t.row.hash) == e.key.txHash && t.row.block == e.block && t.row.time == e.time
  {
    var it := InternalEventRow(Views(traces, provider), e);
    ServedTrace(traces, provider, it);
    t :| t in traces && View(t, provider) == it;
  }

  lemma TraceInBlock(chain: Chain, b: nat, t: Trace)
    requires RowsInBlocks(chain) && t in chain.traces(b)
    ensures t.row.block == b && t.row.time == chain.time(b)
  {
  }

  lemma TraceOrigin(chain: Chain, b: nat, e: Event)
    requires RowsInBlocks(chain)
    requires e in InternalEvents(ValueMoves(Views(chain.traces(b), chain.mainProvider)))
    ensures FromTrace(chain, b, e) && e.block == b && e.time == chain.time(b)
  {
    var traces := chain.traces(b);
    TraceKey(Views(traces, chain.mainProvider), e);
    var t := TraceEventRow(traces, chain.mainProvider, e);
    TraceInBlock(chain, b, t);
    assert t in chain.traces(b) && Lower(t.row.hash) == e.key.txHash;
  }

  lemma Erc20Origin(chain: Chain, b: nat, e: Event)
    requires RowsInBlocks(chain)
    requires Erc20EventsOf(chain.erc20(b), chain.receipts).Ok?
             && e in Erc20EventsOf(chain.erc20(b), chain.receipts).value
    ensures FromErc20(chain, b, e) && e.block == b && e.time == chain.time(b)
  {
    var r := Erc20EventShape(chain.erc20(b), chain.receipts, e);
    assert Lower(r.hash) == e.key.txHash;
  }

  lemma CanonicalOrigin(cfg: Config, chain: Chain, b: nat, e: Event)
    requires WellFormed(cfg, chain) && Canonical(cfg, chain, b, e)
    ensures e.block == b && e.time == chain.time(b)
    ensures FromNative(chain, b, e) || FromTrace(chain, b, e) || FromErc20(chain, b, e)
  {
    FeesOfBlock(cfg, chain, b);
    if cfg.stream == NativeStream {
      assert Erc20Events([]) == [];
      if e in NativeEvents(chain.native(b), FullContext(cfg, chain)) {
        NativeOrigin(cfg, chain, b, e);
      } else {
        TraceOrigin(chain, b, e);
      }
    } else {
      Erc20Origin(chain, b, e);
    }
  }

  lemma SameTxSameBlock(cfg: Config, chain: Chain, a: nat, b: nat, e: Event, f: Event)
    requires TxsInOneBlock(chain) && e.key == f.key
    requires FromNative(chain, a, e) || FromTrace(chain, a, e) || FromErc20(chain, a, e)
    requires FromNative(chain, b, f) || FromTrace(chain, b, f) || FromErc20(chain, b, f)
    ensures a == b
  {
    if FromNative(chain, a, e) {
      var r :| r in chain.native(a) && Lower(r.hash) == e.key.txHash;
      var s :| s in chain.native(b) && Lower(s.hash) == f.key.txHash;
    } else if FromTrace(chain, a, e) {
      var r :| r in chain.traces(a) && Lower(r.row.hash) == e.key.txHash;
      var s :| s in chain.traces(b) && Lower(s.row.hash) == f.key.txHash;
    } else {
      var r :| r in chain.erc20(a) && Lower(r.hash) == e.key.txHash;
      var s :| s in chain.erc20(b) && Lower(s.hash) == f.key.txHash;
    }
  }

  lemma Erc20BlockKeys(rows: seq<Erc20Transfer>, receipts: map<string, Receipt>)
    requires Erc20EventsOf(rows, receipts).Ok?
    ensures DistinctKeys(Erc20EventsOf(rows, receipts).value)
  {
    var idx := Assigned(rows, receipts).value;
    forall i | 0 <= i < |rows| ensures Lower(rows[i].hash) in receipts { GivenMatches(rows, receipts, i); }
    var out := EnrichAll(rows, idx, receipts);
    forall i, j | 0 <= i < j < |rows|
      ensures Lower(out[i].row.hash) != Lower(out[j].row.hash) || out[i].logIndex != out[j].logIndex
    {
      if Lower(rows[i].hash) == Lower(rows[j].hash) { IndexesDistinctPerTx(rows, receipts, i, j); }
    }
    Erc20Keys(out);
  }

  lemma BlockKeysDistinct(cfg: Config, chain: Chain, b: nat)
    requires WellFormed(cfg, chain)
    ensures DistinctKeys(BlockEvents(cfg, chain, b))
  {
    FeesOfBlock(cfg, chain, b);
    if cfg.stream == NativeStream {
      KeysPairwiseDistinct(chain.native(b), ChainInternals(chain, b), [], FullContext(cfg, chain));
    } else if Erc20EventsOf(chain.erc20(b), chain.receipts).Ok? {
      Erc20BlockKeys(chain.erc20(b), chain.receipts);
    }
  }

  lemma KeyNamesOne(events: seq<Event>, e: Event, f: Event)
    requires DistinctKeys(events) && e in events && f in events && e.key == f.key
    ensures e == f
  {
    var i :| 0 <= i < |events| && events[i] == e;
    var j :| 0 <= j < |events| && events[j] == f;
  }

  lemma CanonicalKeyUnique(cfg: Config, chain: Chain, a: nat, b: nat, e: Event, f: Event)
    requires WellFormed(cfg, chain) && Canonical(cfg, chain, a, e) && Canonical(cfg, chain, b, f) && e.key == f.key
    ensures e == f && a == b
  {
    CanonicalOrigin(cfg, chain, a, e);
    CanonicalOrigin(cfg, chain, b, f);
    SameTxSameBlock(cfg, chain, a, b, e, f);
    BlockKeysDistinct(cfg, chain, a);
    KeyNamesOne(BlockEvents(cfg, chain, a), e, f);
  }
}
