// Small chains on which the backfill job and the tail tick break their promises: an address has a
// full page of transactions in one block and nothing else.

module FullPages {
  import opened Text
  import opened Types
  import opened Sequences
  import opened Normalize
  import opened ChainModel
  import opened Windows
  import opened Store
  import opened Ingest
  import opened Backfill

  function FullCfg(addr: string): Config { Config(addr, TxList, NativeStream) }

  function FullRow(addr: string, b: nat, i: nat): NativeTx {
    NativeTx(b, b, Digits(b * PAGE_LIMIT + i), "0xb", Some(addr), 1, 0, 0, false)
  }

  function FullBlock(addr: string, b: nat): (rows: seq<NativeTx>)
    ensures |rows| == PAGE_LIMIT
    ensures forall i :: 0 <= i < |rows| ==> rows[i] == FullRow(addr, b, i)
  {
    seq(PAGE_LIMIT, i requires 0 <= i < PAGE_LIMIT => FullRow(addr, b, i))
  }

  function FullAt(addr: string, full: nat): nat -> seq<NativeTx> {
    (b: nat) => if b == full then FullBlock(addr, full) else []
  }

  // The chain as an address sees it that is paid a page of times in block `full` and never else.
  function FullChain(addr: string, full: nat): Chain {
    Chain(FullAt(addr, full), (b: nat) => [], (b: nat) => [], map[], (b: nat) => b, false, {"p"}, "p")
  }

  lemma DigitsLower(n: nat)
    ensures Lower(Digits(n)) == Digits(n)
  {
  }

  lemma DigitsDiffer(m: nat, n: nat)
    requires m != n
    ensures Lower(Digits(m)) != Lower(Digits(n))
  {
    DigitsLower(m);
    DigitsLower(n);
    ValueDigits(m);
    ValueDigits(n);
  }

  lemma RowAtBlock(addr: string, full: nat, r: NativeTx)
    requires r in FullBlock(addr, full)
    ensures r.block == full == r.time && FeeKnown(r, FullContext(FullCfg(addr), FullChain(addr, full)))
  {
  }

  lemma RowsDiffer(addr: string, full: nat, i: nat, j: nat)
    requires i < j < PAGE_LIMIT
    ensures Lower(FullBlock(addr, full)[i].hash) != Lower(FullBlock(addr, full)[j].hash)
  {
    DigitsDiffer(full * PAGE_LIMIT + i, full * PAGE_LIMIT + j);
  }

  lemma FullChainTxs(addr: string, full: nat)
    ensures TxsInOneBlock(FullChain(addr, full))
  {
    var chain := FullChain(addr, full);
    forall b: nat, i, j | 0 <= i < j < |chain.native(b)|
      ensures Lower(chain.native(b)[i].hash) != Lower(chain.native(b)[j].hash) {
      RowsDiffer(addr, full, i, j);
    }
  }

  lemma FullChainWellFormed(addr: string, full: nat)
    ensures WellFormed(FullCfg(addr), FullChain(addr, full))
  {
    var chain := FullChain(addr, full);
    forall b: nat, r | r in chain.native(b)
      ensures r.block == b == r.time && FeeKnown(r, FullContext(FullCfg(addr), chain)) {
      RowAtBlock(addr, full, r);
    }
    FullChainTxs(addr, full);
    forall b: nat, h ensures TracesOf(chain, b, h) == [] {}
  }

  // What a provider answers to every window that holds the block.
  function FullFetch(addr: string, full: nat): Fetch { NativeFetch(FullBlock(addr, full), None, map[]) }

  lemma FullPageIsPage(addr: string, full: nat, from: nat, safe: int)
    requires from <= full <= safe
    ensures IsPage(FullAt(addr, full), NativeBlock(), from, safe, FullBlock(addr, full))
  {
    var items := FullBlock(addr, full);
    forall b: nat ensures AtBlock(NativeBlock(), items, b) == if b == full then items else [] {
      forall r | r in items ensures OnBlock(NativeBlock(), b)(r) == (b == full) {
        var i :| 0 <= i < |items| && items[i] == r;
      }
      FilterAllOrNone(OnBlock(NativeBlock(), b), items, b == full);
    }
  }

  lemma FullAnswer(addr: string, full: nat, from: nat, safe: int)
    requires from <= full <= safe
    ensures GoodAnswer(FullCfg(addr), FullChain(addr, full), from, safe, FullFetch(addr, full))
  {
    FullPageIsPage(addr, full, from, safe);
  }

  function FullProvider(addr: string, full: nat): (nat, int) -> Fetch { (from: nat, to: int) => FullFetch(addr, full) }

  lemma FullAnswered(addr: string, full: nat, cp: Checkpoint, safe: int)
    requires cp.cursor < full <= safe
    ensures Answered(FullCfg(addr), FullChain(addr, full), cp, safe, FullProvider(addr, full))
  {
    FullAnswer(addr, full, cp.cursor + 1, safe);
  }

  // The block after the cursor fills a page: the run is stuck. A later one does: the run backfills.
  lemma FullChainRuns(addr: string, full: nat, cp: Checkpoint, safe: int)
    requires cp.cursor < full <= safe
    ensures full == cp.cursor + 1 ==> Stalls(FullCfg(addr), FullChain(addr, full), cp, safe)
    ensures full > cp.cursor + 1 ==> Backfills(FullCfg(addr), FullChain(addr, full), cp, safe)
  {
    FullPageIsPage(addr, full, cp.cursor + 1, safe);
    PageFullIffWindow(FullAt(addr, full), NativeBlock(), cp.cursor + 1, safe, FullBlock(addr, full));
  }

  lemma FullOutcome(addr: string, full: nat, cp: Checkpoint, safe: int) returns (o: Outcome)
    requires cp.cursor < full <= safe
    ensures IsOutcome(FullCfg(addr), cp, safe, FullProvider(addr, full), o)
  {
    o := Decide(FullCfg(addr), cp.cursor, safe, FullFetch(addr, full));
  }

  // ------------------------------------------------------------------ a paused stream

  // A paused stream with a full page ahead: its job is enqueued again, and the stored checkpoint is
  // what it was.
  lemma PausedJobRequeues(addr: string, full: nat, cursor: nat, safe: int, before: map<Key, Event>)
      returns (o: Outcome, after: map<Key, Event>, r: JobResult)
    requires cursor + 1 < full <= safe
    ensures var cp := Checkpoint(Paused, cursor, None);
      && WellFormed(FullCfg(addr), FullChain(addr, full))
        && Answered(FullCfg(addr), FullChain(addr, full), cp, safe, FullProvider(addr, full))
      && IsOutcome(FullCfg(addr), cp, safe, FullProvider(addr, full), o)
      && JobOutcome(cp, before, o, cp, after, r) && r.Requeued?
  {
    var cp := Checkpoint(Paused, cursor, None);
    FullChainWellFormed(addr, full);
    FullAnswered(addr, full, cp, safe);
    FullChainRuns(addr, full, cp, safe);
    o := FullOutcome(addr, full, cp, safe);
    RunFacts(FullCfg(addr), FullChain(addr, full), cp, safe, FullProvider(addr, full), o);
    after, r := PausedJob(FullCfg(addr), FullChain(addr, full), cp, safe, before, o);
  }

  lemma PausedJob(cfg: Config, chain: Chain, cp: Checkpoint, safe: int, before: map<Key, Event>, o: Outcome)
      returns (after: map<Key, Event>, r: JobResult)
    requires cp.status == Paused && Backfills(cfg, chain, cp, safe)
    requires OutcomeFacts(cp.cursor, safe, BlockFillsPage(cfg, chain, cp.cursor + 1),
                          WindowFillsPage(cfg, chain, cp.cursor + 1, safe), o)
    ensures JobOutcome(cp, before, o, cp, after, r) && r.Requeued?
  {
    after := InsertAll(before, o.events);
    r := Requeued(IngestResult(Backfilling, o.newCursor, 0));
  }

  // ------------------------------------------------------------------ a tick over two streams

  // No target occurs twice among the streams of a tick: chain, address and stream are the key of the
  // checkpoint table.
  predicate DistinctTargets(cfgs: seq<Config>) {
    forall i, j :: 0 <= i < j < |cfgs| ==>
      Lower(cfgs[i].tracked) != Lower(cfgs[j].tracked) || cfgs[i].stream != cfgs[j].stream
  }

  // What two addresses can see of one chain: the same block times, and a transaction is the same one
  // in the same block.
  ghost predicate OneChain(a: Chain, b: Chain) {
    && (forall n: nat :: a.time(n) == b.time(n))
    && (forall m: nat, n: nat, r, s ::
        r in a.native(m) && s in b.native(n) && Lower(r.hash) == Lower(s.hash) ==> m == n && r == s)
  }

  lemma RowsApart(x: string, m: nat, y: string, n: nat, r: NativeTx, s: NativeTx)
    requires m != n && r in FullBlock(x, m) && s in FullBlock(y, n)
    ensures Lower(r.hash) != Lower(s.hash)
  {
    var i :| 0 <= i < PAGE_LIMIT && FullBlock(x, m)[i] == r;
    var j :| 0 <= j < PAGE_LIMIT && FullBlock(y, n)[j] == s;
    DigitsDiffer(m * PAGE_LIMIT + i, n * PAGE_LIMIT + j);
  }

  lemma FullChainsAreOne(x: string, m: nat, y: string, n: nat)
    requires m != n
    ensures OneChain(FullChain(x, m), FullChain(y, n))
  {
    forall r, s | r in FullBlock(x, m) && s in FullBlock(y, n) ensures Lower(r.hash) != Lower(s.hash) {
      RowsApart(x, m, y, n, r, s);
    }
  }

  lemma TwoChains(x: string, far: nat, y: string, near: nat)
    requires Lower(x) != Lower(y) && far != near
    ensures WellFormed(FullCfg(x), FullChain(x, far)) && WellFormed(FullCfg(y), FullChain(y, near))
    ensures OneChain(FullChain(x, far), FullChain(y, near)) && DistinctTargets([FullCfg(x), FullCfg(y)])
  {
    FullChainWellFormed(x, far);
    FullChainWellFormed(y, near);
    FullChainsAreOne(x, far, y, near);
  }

  // A chain, an honest answer and the outcome of the run over it that backfills.
  lemma BackfillingRun(addr: string, full: nat, cp: Checkpoint, safe: int)
    requires cp.cursor + 1 < full <= safe
    ensures Answered(FullCfg(addr), FullChain(addr, full), cp, safe, FullProvider(addr, full))
    ensures Backfills(FullCfg(addr), FullChain(addr, full), cp, safe)
  {
    FullAnswered(addr, full, cp, safe);
    FullChainRuns(addr, full, cp, safe);
  }

  // The same of one that is stuck.
  lemma StuckRun(addr: string, full: nat, cp: Checkpoint, safe: int)
    requires cp.cursor + 1 == full <= safe
    ensures Answered(FullCfg(addr), FullChain(addr, full), cp, safe, FullProvider(addr, full))
    ensures Stalls(FullCfg(addr), FullChain(addr, full), cp, safe)
  {
    FullAnswered(addr, full, cp, safe);
    FullChainRuns(addr, full, cp, safe);
  }

  function EitherOf(p: (nat, int) -> Fetch, q: (nat, int) -> Fetch): (either: nat -> ((nat, int) -> Fetch))
    ensures either(0) == p && either(1) == q
  {
    var both := [p, q];
    (i: nat) => both[if i == 0 then 0 else 1]
  }

  // What is needed of two streams, whatever their chains.
  lemma TwoStreams(cp: Checkpoint, c: Config, a: Chain, p: (nat, int) -> Fetch, d: Config, b: Chain,
                   q: (nat, int) -> Fetch, safe: int)
      returns (provider: nat -> ((nat, int) -> Fetch), outs: seq<Outcome>)
    requires cp.status == Live && Answered(c, a, cp, safe, p) && Answered(d, b, cp, safe, q)
    requires Backfills(c, a, cp, safe) && Stalls(d, b, cp, safe)
    ensures AllRan([cp, cp], [c, d], safe, provider, outs)
    ensures AllAnswered([cp, cp], [c, d], [a, b], safe, provider)
    ensures Strands([cp, cp], outs)
  {
    provider := EitherOf(p, q);
    outs := TwoOutcomes(cp, c, d, safe, provider);
    TwoAnswered([cp, cp], [c, d], [a, b], safe, provider);
    FirstStranded([cp, cp], [c, d], [a, b], safe, provider, outs);
  }

  lemma TwoOutcomes(cp: Checkpoint, c: Config, d: Config, safe: int, provider: nat -> ((nat, int) -> Fetch))
      returns (outs: seq<Outcome>)
    ensures AllRan([cp, cp], [c, d], safe, provider, outs)
  {
    var first := OutcomeOf(c, cp, safe, provider(0));
    var second := OutcomeOf(d, cp, safe, provider(1));
    outs := [first, second];
    TwoRan([cp, cp], [c, d], safe, provider, outs);
  }

  lemma OutcomeOf(cfg: Config, cp: Checkpoint, safe: int, provider: (nat, int) -> Fetch) returns (o: Outcome)
    ensures IsOutcome(cfg, cp, safe, provider, o)
  {
    o := if NothingToFetch(cp.cursor, safe) then Skip else Decide(cfg, cp.cursor, safe, provider(cp.cursor + 1, safe));
  }

  // The native streams of two addresses are live with the same cursor. The first has a full page
  // ahead and goes to backfilling; the second is stuck at its next block and fails the tick: the first
  // is left without a job.
  lemma SecondStreamStrandsFirst(x: string, y: string, cursor: nat, safe: int)
      returns (a: Chain, b: Chain, provider: nat -> ((nat, int) -> Fetch), outs: seq<Outcome>)
    requires Lower(x) != Lower(y) && cursor + 1 < safe
    ensures WellFormed(FullCfg(x), a) && WellFormed(FullCfg(y), b) && OneChain(a, b)
    ensures var cp, cfgs := Checkpoint(Live, cursor, None), [FullCfg(x), FullCfg(y)];
      && DistinctTargets(cfgs) && AllRan([cp, cp], cfgs, safe, provider, outs)
      && AllAnswered([cp, cp], cfgs, [a, b], safe, provider) && Strands([cp, cp], outs)
  {
    var cp := Checkpoint(Live, cursor, None);
    var p, q;
    a, b, p, q := TwoViews(x, y, cp, safe);
    provider, outs := TwoStreams(cp, FullCfg(x), a, p, FullCfg(y), b, q, safe);
  }

  lemma TwoViews(x: string, y: string, cp: Checkpoint, safe: int)
      returns (a: Chain, b: Chain, p: (nat, int) -> Fetch, q: (nat, int) -> Fetch)
    requires Lower(x) != Lower(y) && cp.cursor + 1 < safe
    ensures WellFormed(FullCfg(x), a) && WellFormed(FullCfg(y), b) && OneChain(a, b)
    ensures DistinctTargets([FullCfg(x), FullCfg(y)])
    ensures Answered(FullCfg(x), a, cp, safe, p) && Answered(FullCfg(y), b, cp, safe, q)
    ensures Backfills(FullCfg(x), a, cp, safe) && Stalls(FullCfg(y), b, cp, safe)
  {
    var far, near := cp.cursor + 2, cp.cursor + 1;
    TwoChains(x, far, y, near);
    BackfillingRun(x, far, cp, safe);
    StuckRun(y, near, cp, safe);
    a, b, p, q := FullChain(x, far), FullChain(y, near), FullProvider(x, far), FullProvider(y, near);
  }

  lemma TwoRan(cps: seq<Checkpoint>, cfgs: seq<Config>, safe: int, provider: nat -> ((nat, int) -> Fetch),
               outs: seq<Outcome>)
    requires |cps| == |cfgs| == |outs| == 2
    requires IsOutcome(cfgs[0], cps[0], safe, provider(0), outs[0])
    requires IsOutcome(cfgs[1], cps[1], safe, provider(1), outs[1])
    ensures AllRan(cps, cfgs, safe, provider, outs)
  {
    assert Ran(cps, cfgs, safe, provider, outs, 0) && Ran(cps, cfgs, safe, provider, outs, 1);
  }

  lemma TwoAnswered(cps: seq<Checkpoint>, cfgs: seq<Config>, chains: seq<Chain>, safe: int,
                    provider: nat -> ((nat, int) -> Fetch))
    requires |cps| == |cfgs| == |chains| == 2
    requires Answered(cfgs[0], chains[0], cps[0], safe, provider(0))
    requires Answered(cfgs[1], chains[1], cps[1], safe, provider(1))
    ensures AllAnswered(cps, cfgs, chains, safe, provider)
  {
    assert StreamAnswered(cps, cfgs, chains, safe, provider, 0) && StreamAnswered(cps, cfgs, chains, safe, provider, 1);
  }

  lemma FirstStranded(cps: seq<Checkpoint>, cfgs: seq<Config>, chains: seq<Chain>, safe: int,
                      provider: nat -> ((nat, int) -> Fetch), outs: seq<Outcome>)
    requires |cps| == 2 && cps[0].status == Live == cps[1].status
    requires AllRan(cps, cfgs, safe, provider, outs) && AllAnswered(cps, cfgs, chains, safe, provider)
    requires Backfills(cfgs[0], chains[0], cps[0], safe) && Stalls(cfgs[1], chains[1], cps[1], safe)
    ensures Strands(cps, outs)
  {
    assert StreamBackfills(cps, cfgs, chains, safe, 0) && StreamStalls(cps, cfgs, chains, safe, 1);
    assert NoneStallsUpTo(cps, cfgs, chains, safe, 0);
    assert Overtaken(cps, cfgs, chains, safe, 0, 1);
    TickStrands(cps, cfgs, chains, safe, provider, outs);
  }
}
