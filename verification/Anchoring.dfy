// The anchored baseline (packages/ingestion/src/processors/anchor.ts, write/anchor-writer.ts), and
// what it makes of the balance of a native stream on a concrete chain.

module Anchoring {
  import opened Text
  import opened Types
  import opened Sequences
  import opened Normalize
  import opened ChainModel
  import opened Committable
  import opened CanonicalKeys
  import opened Store
  import opened Protocol
  import opened Runs
  import opened Ledger
  import opened AnchoredBalance

  // ------------------------------------------------------------------ one anchor job

  datatype AnchorError = InvalidDate | AnchorTooRecent(finalityDepth: nat)

  datatype AnchorResult = AnchorResult(anchorBlock: nat, inserted: nat)

  datatype Baseline = Baseline(token: Token, amount: int)

  // What providers attest at a block: the native balance and the balance of each token contract.
  datatype Attested = Attested(native: nat -> int, erc20: (string, nat) -> int)

  function BalanceAt(attested: Attested, block: nat): Token -> int {
    (t: Token) => match t
      case NativeToken => attested.native(block)
      case Erc20Token(contract) => attested.erc20(contract, block)
  }

  // anchor.ts:54-65.
  method NativeBalances(attested: Attested, block: nat) returns (out: seq<Baseline>)
    ensures |out| <= 1
    ensures forall t: Token, amount: int ::
      Baseline(t, amount) in out <==> t == NativeToken && amount == attested.native(block) > 0
  {
    var balance := attested.native(block);
    if balance <= 0 { return []; }
    return [Baseline(NativeToken, balance)];
  }

  // anchor.ts:67-86. `curated` are the verified tokens; a row may lack a contract.
  method Erc20Balances(attested: Attested, block: nat, curated: seq<Option<string>>) returns (out: seq<Baseline>)
    ensures forall t: Token, amount: int :: Baseline(t, amount) in out <==>
      t.Erc20Token? && t.contract != "" && Some(t.contract) in curated
        && amount == attested.erc20(t.contract, block) > 0
  {
    out := [];
    for i := 0 to |curated|
      invariant forall t: Token, amount: int :: Baseline(t, amount) in out <==>
        t.Erc20Token? && t.contract != "" && Some(t.contract) in curated[..i]
          && amount == attested.erc20(t.contract, block) > 0
    {
      assert curated[..i + 1] == curated[..i] + [curated[i]];
      if curated[i].Some? && curated[i].value != "" {
        var balance := attested.erc20(curated[i].value, block);
        if balance > 0 { out := out + [Baseline(Erc20Token(curated[i].value), balance)]; }
      }
    }
    assert curated[..|curated|] == curated;
  }

  // anchor-writer.ts:26-53.
  function BuildOpeningBalanceRows(address: string, block: nat, time: int, balances: seq<Baseline>): (rows: seq<Event>)
    ensures |rows| == |balances|
  {
    Map((b: Baseline) =>
      Event(Key(AnchorTxHash(address, block), -3, b.token), OpeningBalance, ZERO_ADDRESS, Lower(address),
            b.amount, block, time, ZERO_ADDRESS, Some(Lower(address))), balances)
  }

  // The fold over the opening rows reports the attested balance: no baseline is needed for none, and
  // a negative one is taken for none.
  lemma NativeBaselineReports(attested: Attested, address: string, block: nat, time: int, out: seq<Baseline>)
    requires |out| <= 1 && Lower(address) != ZERO_ADDRESS
    requires forall t: Token, amount: int ::
      Baseline(t, amount) in out <==> t == NativeToken && amount == attested.native(block) > 0
    ensures var rows := BuildOpeningBalanceRows(address, block, time, out);
      && Balance(rows, Lower(address), NativeToken, None) ==
        (if attested.native(block) > 0 then attested.native(block) else 0)
      && forall e :: e in rows ==> e.amount > 0
  {
    assert Baseline(NativeToken, attested.native(block)) in out <==> attested.native(block) > 0;
    if out == [] {
    } else {
      assert out[0] in out && out[0] == Baseline(out[0].token, out[0].amount);
      assert out == [out[0]];
      var row := BuildOpeningBalanceRows(address, block, time, out)[0];
      LedgerLaws.SingletonBalance(row, Lower(address), NativeToken, None);
    }
  }

  ghost predicate Opens(rows: seq<Event>, t: Token) { exists e :: e in rows && e.key.token == t }

  predicate IsCurated(curated: seq<Option<string>>, t: Token) {
    t.Erc20Token? && t.contract != "" && Some(t.contract) in curated
  }

  lemma CuratedOpen(address: string, block: nat, time: int, attested: Attested, curated: seq<Option<string>>,
                    balances: seq<Baseline>)
    requires forall t: Token, amount: int :: Baseline(t, amount) in balances <==>
      t.Erc20Token? && t.contract != "" && Some(t.contract) in curated
        && amount == attested.erc20(t.contract, block) > 0
    ensures forall t: Token :: Opens(BuildOpeningBalanceRows(address, block, time, balances), t) <==>
      IsCurated(curated, t) && attested.erc20(t.contract, block) > 0
  {
    var rows := BuildOpeningBalanceRows(address, block, time, balances);
    forall t: Token ensures Opens(rows, t) <==> IsCurated(curated, t) && attested.erc20(t.contract, block) > 0 {
      if e :| e in rows && e.key.token == t {
        var i :| 0 <= i < |rows| && rows[i] == e;
        assert Baseline(balances[i].token, balances[i].amount) in balances;
      }
      if IsCurated(curated, t) && attested.erc20(t.contract, block) > 0 {
        var i :| 0 <= i < |balances| && balances[i] == Baseline(t, attested.erc20(t.contract, block));
        assert rows[i] in rows && rows[i].key.token == t;
      }
    }
  }

  // anchor.ts:30-52. `anchorTime` is the start of the anchor date, None when it is no date.
  // A block inside the unsafe tip is refused, never clamped: the rows carry the instant of the date,
  // and a clamped block would not be the last one at it.
  method RunAnchor(db: Database, tracked: string, stream: Stream, anchorTime: Option<int>, head: int,
                   finalityDepth: nat, blockByTime: int -> nat, attested: Attested, curated: seq<Option<string>>)
    returns (r: Result<AnchorResult, AnchorError>, ghost rows: seq<Event>)
    requires db.Valid()
    modifies db
    ensures db.Valid()
    ensures r == Err(InvalidDate) <==> anchorTime.None?
    ensures r == Err(AnchorTooRecent(finalityDepth))
            <==> anchorTime.Some? && blockByTime(anchorTime.value) > head - finalityDepth
    ensures r.Err? ==> db.checkpoint == old(db.checkpoint) && db.store == old(db.store)
    ensures r.Ok? ==>
      var a := Anchor(blockByTime(anchorTime.value), anchorTime.value,
                      BalanceAt(attested, blockByTime(anchorTime.value)));
      && r.value.anchorBlock == a.block
      && (forall setup: Setup ::
          setup.tracked == tracked && setup.stream == stream && setup.anchor == Some(a) ==> AnchorRows(setup, rows))
      && db.store == InsertAll(old(db.store), rows)
      && db.checkpoint == AnchorCheckpoint(old(db.checkpoint), a.block)
      && |db.store| == |old(db.store)| + r.value.inserted
    ensures r.Ok? && stream == Erc20Stream ==> forall t: Token ::
      Opens(rows, t) <==> IsCurated(curated, t) && attested.erc20(t.contract, r.value.anchorBlock) > 0
  {
    rows := [];
    if anchorTime.None? { return Err(InvalidDate), rows; }
    var safe := head - finalityDepth;
    var block := blockByTime(anchorTime.value);
    if block > safe { return Err(AnchorTooRecent(finalityDepth)), rows; }
    var balances;
    if stream == NativeStream {
      balances := NativeBalances(attested, block);
      assert balances != []
             ==> balances[0] in balances && balances[0] == Baseline(balances[0].token, balances[0].amount);
      assert attested.native(block) > 0 ==> Baseline(NativeToken, attested.native(block)) in balances;
    } else {
      balances := Erc20Balances(attested, block, curated);
    }
    var built := BuildOpeningBalanceRows(tracked, block, anchorTime.value, balances);
    rows := built;
    BuiltRows(tracked, stream, block, anchorTime.value, attested, balances);
    if stream == Erc20Stream { CuratedOpen(tracked, block, anchorTime.value, attested, curated, balances); }
    var inserted := db.CommitAnchor(built, block);
    return Ok(AnchorResult(block, inserted)), rows;
  }

  ghost predicate AttestedBalances(stream: Stream, block: nat, attested: Attested, balances: seq<Baseline>) {
    && (forall b :: b in balances ==> b.amount == BalanceAt(attested, block)(b.token) > 0)
    && (stream == NativeStream ==>
          balances == if attested.native(block) > 0 then [Baseline(NativeToken, attested.native(block))] else [])
  }

  lemma BuiltRows(tracked: string, stream: Stream, block: nat, time: int, attested: Attested, balances: seq<Baseline>)
    requires AttestedBalances(stream, block, attested, balances)
    ensures forall setup: Setup ::
      setup.tracked == tracked && setup.stream == stream
        && setup.anchor == Some(Anchor(block, time, BalanceAt(attested, block)))
      ==> AnchorRows(setup, BuildOpeningBalanceRows(tracked, block, time, balances))
  {
    var rows := BuildOpeningBalanceRows(tracked, block, time, balances);
    forall setup: Setup | setup.tracked == tracked && setup.stream == stream
                          && setup.anchor == Some(Anchor(block, time, BalanceAt(attested, block)))
      ensures AnchorRows(setup, rows)
    {
      forall e | e in rows ensures IsOpening(setup, e) {
        var i :| 0 <= i < |rows| && rows[i] == e;
        assert balances[i] in balances;
      }
    }
  }

  // ------------------------------------------------------------------ on a concrete chain

  ghost function HistoryFrom(cfg: Config, chain: Chain): History
    requires FeesOnChain(cfg, chain)
  {
    History((b: nat) => BlockEvents(cfg, chain, b), chain.time)
  }

  lemma NativeKinds(cfg: Config, chain: Chain, b: nat, e: Event)
    requires WellFormed(cfg, chain) && cfg.stream == NativeStream && Canonical(cfg, chain, b, e)
    ensures e.kind != OpeningBalance && e.key.token == NativeToken
  {
    FeesOfBlock(cfg, chain, b);
    assert Erc20Events([]) == [];
    if e in NativeEvents(chain.native(b), FullContext(cfg, chain)) {
      NativeKind(chain.native(b), FullContext(cfg, chain), e);
    } else {
      var moves := ValueMoves(ChainInternals(chain, b));
      var i :| 0 <= i < |InternalEvents(moves)| && InternalEvents(moves)[i] == e;
    }
  }

  lemma NativeKind(txs: seq<NativeTx>, ctx: Context, e: Event)
    requires FeesKnown(txs, ctx) && e in NativeEvents(txs, ctx)
    ensures e.kind != OpeningBalance && e.key.token == NativeToken
  {
    NativeEventRow(txs, ctx, e);
  }

  lemma ChainHistory(cfg: Config, chain: Chain, anchor: Option<Anchor>)
    requires WellFormed(cfg, chain)
    ensures HistoryOf(SetupOf(cfg, chain, anchor), HistoryFrom(cfg, chain))
  {
    ChainInBlocks(cfg, chain);
    ChainBlocksHold(cfg, chain, anchor);
    ChainNoRepeats(cfg, chain);
    ChainDated(cfg, chain);
  }

  // Canonical events lie in their block, at its time.
  ghost predicate InTheirBlocks(cfg: Config, chain: Chain)
    requires FeesOnChain(cfg, chain)
  {
    forall b: nat, e: Event :: Canonical(cfg, chain, b, e) ==> e.block == b && e.time == chain.time(b)
  }

  lemma ChainInBlocks(cfg: Config, chain: Chain)
    requires WellFormed(cfg, chain)
    ensures InTheirBlocks(cfg, chain)
  {
    forall b: nat, e: Event | Canonical(cfg, chain, b, e) ensures e.block == b && e.time == chain.time(b) {
      CanonicalOrigin(cfg, chain, b, e);
    }
  }

  lemma ChainBlocksHold(cfg: Config, chain: Chain, anchor: Option<Anchor>)
    requires FeesOnChain(cfg, chain) && InTheirBlocks(cfg, chain)
    ensures BlocksHold(SetupOf(cfg, chain, anchor), HistoryFrom(cfg, chain))
  {
    forall b: nat, e: Event
      ensures e in HistoryFrom(cfg, chain).events(b) <==> SetupOf(cfg, chain, anchor).canonical(e) && e.block == b
    {
      assert Canonical(cfg, chain, b, e) <==> e in HistoryFrom(cfg, chain).events(b);
      assert Truth(cfg, chain, e) <==> Canonical(cfg, chain, e.block, e);
    }
  }

  lemma ChainDated(cfg: Config, chain: Chain)
    requires FeesOnChain(cfg, chain) && InTheirBlocks(cfg, chain)
    ensures Dated(HistoryFrom(cfg, chain))
  {
    forall b: nat, e: Event | e in HistoryFrom(cfg, chain).events(b) ensures e.time == chain.time(b) {
      assert Canonical(cfg, chain, b, e);
    }
  }

  lemma ChainNoRepeats(cfg: Config, chain: Chain)
    requires WellFormed(cfg, chain)
    ensures NoRepeats(HistoryFrom(cfg, chain))
  {
    forall b: nat ensures Distinct(HistoryFrom(cfg, chain).events(b)) {
      BlockKeysDistinct(cfg, chain, b);
    }
  }

  lemma ChainNativeTruth(cfg: Config, chain: Chain, anchor: Option<Anchor>)
    requires WellFormed(cfg, chain) && cfg.stream == NativeStream
    ensures NativeTruth(SetupOf(cfg, chain, anchor))
  {
    forall e: Event | SetupOf(cfg, chain, anchor).canonical(e)
      ensures e.kind != OpeningBalance && e.key.token == NativeToken
    {
      NativeKinds(cfg, chain, e.block, e);
    }
  }

  // The anchored balance on a concrete chain: after any interleaving of anchor and page jobs over
  // honest fetches, re-runs, crashes and pauses included, the fold as of t reports the full-history
  // balance at the last block not after t exactly when the rows stored from before the anchor
  // cancel out - and they do when no page job reads the checkpoint before it is anchored.
  lemma ChainAnchoredBalance(cfg: Config, chain: Chain, anchor: Option<Anchor>, s: State, steps: seq<Step>,
                             rows: seq<Event>, t: int, n: nat)
    requires WellFormed(cfg, chain) && cfg.stream == NativeStream && Initial(s)
    requires HonestRun(cfg, chain, SetupOf(cfg, chain, anchor), s, steps) && Anchors(steps)
    requires TimeOrdered(HistoryFrom(cfg, chain)) && TrueAnchor(SetupOf(cfg, chain, anchor), HistoryFrom(cfg, chain))
    ensures IsRun(SetupOf(cfg, chain, anchor), s, steps)
    ensures var setup, h := SetupOf(cfg, chain, anchor), HistoryFrom(cfg, chain);
      var s' := After(setup, s, steps);
      Enumerates(rows, s'.store) && anchor.value.time <= t && anchor.value.block <= n <= s'.high
        && h.time(n) <= t < h.time(n + 1) ==>
        && (Balance(rows, Lower(cfg.tracked), NativeToken, Some(t)) == TrueBalance(setup, h, n)
            <==> Balance(EarlyRows(setup, rows), Lower(cfg.tracked), NativeToken, None) == 0)
        && (AnchoredFirst(setup, s, steps)
            ==> Balance(rows, Lower(cfg.tracked), NativeToken, Some(t)) == TrueBalance(setup, h, n))
  {
    var setup, h := SetupOf(cfg, chain, anchor), HistoryFrom(cfg, chain);
    HonestRunIsRun(cfg, chain, anchor, s, steps);
    SetupValid(cfg, chain, anchor);
    ChainHistory(cfg, chain, anchor);
    ChainNativeTruth(cfg, chain, anchor);
    var s' := After(setup, s, steps);
    if Enumerates(rows, s'.store) && anchor.value.time <= t && anchor.value.block <= n <= s'.high
      && h.time(n) <= t < h.time(n + 1) {
      AnchoredRunBalance(setup, h, s, steps, rows, t, n);
    }
  }
}
