// The chain as ingestion sees it: for every block the rows that touch the tracked address, what a
// provider page may contain, and the canonical events of a block.

module ChainModel {
  import opened Text
  import opened Types
  import opened Sequences
  import opened Normalize
  import opened Sentinels
  import opened LogIndex

  // packages/ingestion/src/processors/ingest.ts:35.
  const PAGE_LIMIT: nat := 1000

  datatype Stream = NativeStream | Erc20Stream

  // An immutable chain. `providers` serve traces, each with its own labels; none of them does when
  // `hasInternal` is false.
  datatype Chain = Chain(
    native: nat -> seq<NativeTx>,
    traces: nat -> seq<Trace>,
    erc20: nat -> seq<Erc20Transfer>,
    receipts: map<string, Receipt>,
    time: nat -> int,
    hasInternal: bool,
    providers: set<string>,
    mainProvider: string)

  datatype Config = Config(tracked: string, feeStrategy: FeeStrategy, stream: Stream)

  function FullContext(cfg: Config, chain: Chain): Context {
    Context(cfg.tracked, cfg.feeStrategy, chain.receipts)
  }

  // The value-moving traces of one transaction in a block.
  function TraceOf(txHash: string): Trace -> bool {
    (t: Trace) => Lower(t.row.hash) == txHash && MovesValue(t.row)
  }

  function TracesOf(chain: Chain, b: nat, txHash: string): seq<Trace> {
    Filter(TraceOf(txHash), chain.traces(b))
  }

  // ------------------------------------------------------------------ what every chain satisfies

  ghost predicate RowsInBlocks(chain: Chain) {
    && (forall b: nat, r :: r in chain.native(b) ==> r.block == b && r.time == chain.time(b))
    && (forall b: nat, r :: r in chain.traces(b) ==> r.row.block == b && r.row.time == chain.time(b))
    && (forall b: nat, r :: r in chain.erc20(b) ==> r.block == b && r.time == chain.time(b))
  }

  // A transaction is in one block, and once in its block's list of transactions.
  ghost predicate TxsInOneBlock(chain: Chain) {
    && (forall a: nat, b: nat, r, s ::
        r in chain.native(a) && s in chain.native(b) && Lower(r.hash) == Lower(s.hash) ==> a == b)
    && (forall a: nat, b: nat, r, s ::
        r in chain.traces(a) && s in chain.traces(b) && Lower(r.row.hash) == Lower(s.row.hash) ==> a == b)
    && (forall a: nat, b: nat, r, s ::
        r in chain.erc20(a) && s in chain.erc20(b) && Lower(r.hash) == Lower(s.hash) ==> a == b)
    && (forall b: nat, i, j ::
        0 <= i < j < |chain.native(b)| ==> Lower(chain.native(b)[i].hash) != Lower(chain.native(b)[j].hash))
  }

  // Every outgoing transaction has a receipt where fees come from receipts.
  ghost predicate FeesOnChain(cfg: Config, chain: Chain) {
    forall b: nat, r :: r in chain.native(b) ==> FeeKnown(r, FullContext(cfg, chain))
  }

  // One labelling regime per transaction, whichever providers serve it.
  ghost predicate Regimes(chain: Chain) {
    && chain.mainProvider in chain.providers
    && forall b: nat, h, p, q :: p in chain.providers && q in chain.providers ==> OneRegime(TracesOf(chain, b, h), p, q)
  }

  ghost predicate WellFormed(cfg: Config, chain: Chain) {
    RowsInBlocks(chain) && TxsInOneBlock(chain) && FeesOnChain(cfg, chain) && Regimes(chain)
      && LogsNumbered(chain.receipts)
  }

  // Every transaction's traces are calls of one tree, which each provider labels in its scheme.
  ghost predicate TreeLabels(chain: Chain, scheme: string -> Scheme) {
    forall b: nat, h :: OfTree(TracesOf(chain, b, h), chain.providers, scheme)
  }

  ghost predicate OfTree(traces: seq<Trace>, providers: set<string>, scheme: string -> Scheme) {
    exists t, root, at ::
      FromTree(traces, t, root, at) && forall p :: p in providers ==> LabelledBy(traces, p, scheme(p), t, root, at)
  }

  // Chains served by providers with path labels or ordinals meet the regime that every chain is
  // assumed to have.
  lemma TreeLabelsGiveRegimes(chain: Chain, scheme: string -> Scheme)
    requires chain.mainProvider in chain.providers && TreeLabels(chain, scheme)
    ensures Regimes(chain)
  {
    forall b: nat, h, p, q | p in chain.providers && q in chain.providers
      ensures OneRegime(TracesOf(chain, b, h), p, q) {
      var traces := TracesOf(chain, b, h);
      assert OfTree(traces, chain.providers, scheme);
      var t, root, at :|
        && FromTree(traces, t, root, at)
        && forall p :: p in chain.providers ==> LabelledBy(traces, p, scheme(p), t, root, at);
      TreesGiveOneRegime(traces, p, scheme(p), q, scheme(q), t, root, at);
    }
  }

  // ------------------------------------------------------------------ provider pages

  function AtBlock<R>(blockOf: R -> nat, items: seq<R>, b: nat): seq<R> {
    Filter(OnBlock(blockOf, b), items)
  }

  function OnBlock<R>(blockOf: R -> nat, b: nat): R -> bool { (r: R) => blockOf(r) == b }

  // A page over the window [from, to]: ascending blocks; short pages are whole; a full page is
  // whole below its last block and holds any part of that one, in any order inside a block.
  ghost predicate IsPage<R(!new)>(rowsAt: nat -> seq<R>, blockOf: R -> nat, from: nat, to: int, items: seq<R>) {
    && |items| <= PAGE_LIMIT
    && (forall i, j :: 0 <= i < j < |items| ==> blockOf(items[i]) <= blockOf(items[j]))
    && (forall i :: 0 <= i < |items| ==> from <= blockOf(items[i]) <= to)
    && (|items| < PAGE_LIMIT ==> WholeThrough(rowsAt, blockOf, from, to, items))
    && (|items| == PAGE_LIMIT ==>
        && WholeThrough(rowsAt, blockOf, from, blockOf(items[|items| - 1]) - 1, items)
        && var last := blockOf(items[|items| - 1]);
           multiset(AtBlock(blockOf, items, last)) <= multiset(rowsAt(last)))
  }

  ghost predicate WholeThrough<R(!new)>(rowsAt: nat -> seq<R>, blockOf: R -> nat, from: nat, upto: int, items: seq<R>) {
    forall b: nat :: from <= b <= upto ==> multiset(AtBlock(blockOf, items, b)) == multiset(rowsAt(b))
  }

  function NativeBlock(): NativeTx -> nat { (r: NativeTx) => r.block }

  function InternalBlock(): InternalTx -> nat { (r: InternalTx) => r.block }

  function Erc20Block(): Erc20Transfer -> nat { (r: Erc20Transfer) => r.block }

  // What the trace endpoint of one provider serves for a block.
  function ServedTraces(chain: Chain, provider: string): nat -> seq<InternalTx> {
    (b: nat) => Views(chain.traces(b), provider)
  }

  // Everything one run fetches (ingest.ts:126-160), with the receipts it got.
  datatype Fetch =
    | NativeFetch(native: seq<NativeTx>, internals: Option<seq<InternalTx>>, receipts: map<string, Receipt>)
    | Erc20Fetch(rows: seq<Erc20Transfer>, receipts: map<string, Receipt>)

  ghost predicate TruthfulReceipts(receipts: map<string, Receipt>, chain: Chain) {
    forall h :: h in receipts ==> h in chain.receipts && receipts[h] == chain.receipts[h]
  }

  ghost predicate ServedBy(chain: Chain, provider: string, from: nat, to: int, items: seq<InternalTx>) {
    IsPage(ServedTraces(chain, provider), InternalBlock(), from, to, items)
  }

  // A fetch that honours the provider contract for the window [from, to].
  ghost predicate Honest(cfg: Config, chain: Chain, from: nat, to: int, f: Fetch) {
    && TruthfulReceipts(f.receipts, chain)
    && match f
       case NativeFetch(native, internals, receipts) =>
         && cfg.stream == NativeStream
         && IsPage(chain.native, NativeBlock(), from, to, native)
         && (internals.Some? <==> chain.hasInternal)
         && (internals.Some? ==> exists p :: p in chain.providers && ServedBy(chain, p, from, to, internals.value))
       case Erc20Fetch(rows, receipts) =>
         && cfg.stream == Erc20Stream
         && IsPage(chain.erc20, Erc20Block(), from, to, rows)
  }

  // ------------------------------------------------------------------ what a fetch becomes

  datatype FetchError = NoReceipt | NoLog

  function InternalsOf(f: Fetch): seq<InternalTx>
    requires f.NativeFetch?
  {
    if f.internals.Some? then f.internals.value else []
  }

  function EnrichAll(rows: seq<Erc20Transfer>, indexes: seq<nat>,
                     receipts: map<string, Receipt>): (out: seq<Erc20WithMeta>)
    requires |rows| == |indexes|
    requires forall i :: 0 <= i < |rows| ==> Lower(rows[i].hash) in receipts
    ensures |out| == |rows|
    ensures forall i :: 0 <= i < |rows| ==> out[i] == Enrich(rows[i], indexes[i], receipts[Lower(rows[i].hash)])
  {
    seq(|rows|, i requires 0 <= i < |rows| => Enrich(rows[i], indexes[i], receipts[Lower(rows[i].hash)]))
  }

  ghost function Erc20EventsOf(rows: seq<Erc20Transfer>,
                               receipts: map<string, Receipt>): Result<seq<Event>, FetchError> {
    var matching := Assigned(rows, receipts);
    if matching.Err? then Err(NoLog)
    else
      assert forall i :: 0 <= i < |rows| ==> Lower(rows[i].hash) in receipts by {
        forall i | 0 <= i < |rows| ensures Lower(rows[i].hash) in receipts { GivenMatches(rows, receipts, i); }
      }
      Ok(Erc20Events(EnrichAll(rows, matching.value, receipts)))
  }

  // The events a run derives from its fetch; an error fails the run before any commit.
  ghost function EventsOf(cfg: Config, f: Fetch): Result<seq<Event>, FetchError> {
    match f
    case NativeFetch(native, internals, receipts) =>
      var ctx := Context(cfg.tracked, cfg.feeStrategy, receipts);
      if FeesKnown(native, ctx) then Ok(NormalizedEvents(native, InternalsOf(f), [], ctx)) else Err(NoReceipt)
    case Erc20Fetch(rows, receipts) => Erc20EventsOf(rows, receipts)
  }

  // ------------------------------------------------------------------ canonical events

  lemma FeesOfBlock(cfg: Config, chain: Chain, b: nat)
    requires FeesOnChain(cfg, chain)
    ensures FeesKnown(chain.native(b), FullContext(cfg, chain))
  {
    forall i | 0 <= i < |chain.native(b)| ensures FeeKnown(chain.native(b)[i], FullContext(cfg, chain)) {
      assert chain.native(b)[i] in chain.native(b);
    }
  }

  function ChainInternals(chain: Chain, b: nat): seq<InternalTx> {
    if chain.hasInternal then Views(chain.traces(b), chain.mainProvider) else []
  }

  // The events of one whole block.
  ghost function BlockEvents(cfg: Config, chain: Chain, b: nat): seq<Event>
    requires FeesOnChain(cfg, chain)
  {
    if cfg.stream == NativeStream then
      FeesOfBlock(cfg, chain, b);
      NormalizedEvents(chain.native(b), ChainInternals(chain, b), [], FullContext(cfg, chain))
    else
      var events := Erc20EventsOf(chain.erc20(b), chain.receipts);
      if events.Ok? then events.value else []
  }

  ghost predicate Canonical(cfg: Config, chain: Chain, b: nat, e: Event)
    requires FeesOnChain(cfg, chain)
  {
    e in BlockEvents(cfg, chain, b)
  }
}
