// Canonicalization of provider rows into events (packages/ingestion/src/normalize.ts:118-368).

module Normalize {
  import opened Text
  import opened Types
  import opened Sequences
  import opened TraceOrder

  const INTERNAL_SENTINEL_BASE := -1000

  datatype Context = Context(tracked: string, feeStrategy: FeeStrategy, receipts: map<string, Receipt>)

  datatype NormalizeError = MissingReceipt(txHash: string)

  // ------------------------------------------------------------------ native rows

  function NativeTransferOf(tx: NativeTx): seq<Event> {
    if !tx.isError && tx.value > 0 then
      [Event(Key(Lower(tx.hash), -1, NativeToken), NativeTransfer, Lower(tx.from), ToAddress(tx), tx.value,
             tx.block, tx.time, Lower(tx.from), TxTo(tx))]
    else []
  }

  function ToAddress(tx: NativeTx): string {
    if tx.to.None? then ZERO_ADDRESS else Lower(tx.to.value)
  }

  function TxTo(tx: NativeTx): Option<string> {
    if tx.to.None? then None else Some(Lower(tx.to.value))
  }

  predicate NeedsReceipt(tx: NativeTx, ctx: Context) {
    Lower(tx.from) == Lower(ctx.tracked) && ctx.feeStrategy == ReceiptsOpstack
  }

  predicate FeeKnown(tx: NativeTx, ctx: Context) {
    NeedsReceipt(tx, ctx) ==> Lower(tx.hash) in ctx.receipts
  }

  // normalize.ts:356-368.
  function GasFeeOf(tx: NativeTx, ctx: Context): nat
    requires ctx.feeStrategy == ReceiptsOpstack ==> Lower(tx.hash) in ctx.receipts
  {
    if ctx.feeStrategy == TxList then tx.gasUsed * tx.gasPrice
    else
      var receipt := ctx.receipts[Lower(tx.hash)];
      var l2 := receipt.gasUsed * receipt.effectiveGasPrice;
      if receipt.l1Fee.None? then l2 else l2 + receipt.l1Fee.value
  }

  function GasOf(tx: NativeTx, ctx: Context): seq<Event>
    requires FeeKnown(tx, ctx)
  {
    if Lower(tx.from) == Lower(ctx.tracked) then
      [Event(Key(Lower(tx.hash), -2, NativeToken), GasFee, Lower(tx.from), ZERO_ADDRESS, GasFeeOf(tx, ctx),
             tx.block, tx.time, Lower(tx.from), TxTo(tx))]
    else []
  }

  ghost predicate FeesKnown(txs: seq<NativeTx>, ctx: Context) {
    forall i :: 0 <= i < |txs| ==> FeeKnown(txs[i], ctx)
  }

  function NativeEvents(txs: seq<NativeTx>, ctx: Context): seq<Event>
    requires FeesKnown(txs, ctx)
  {
    if txs == [] then []
    else NativeEvents(txs[..|txs| - 1], ctx) + NativeTransferOf(txs[|txs| - 1]) + GasOf(txs[|txs| - 1], ctx)
  }

  lemma {:induction false} NativeEventsMembers(txs: seq<NativeTx>, ctx: Context, e: Event)
    requires FeesKnown(txs, ctx)
    ensures e in NativeEvents(txs, ctx) <==>
            exists i :: 0 <= i < |txs| && (e in NativeTransferOf(txs[i]) || e in GasOf(txs[i], ctx))
  {
    if txs != [] {
      var init := txs[..|txs| - 1];
      NativeEventsMembers(init, ctx, e);
      if e in NativeEvents(init, ctx) {
        var i :| 0 <= i < |init| && (e in NativeTransferOf(init[i]) || e in GasOf(init[i], ctx));
        assert txs[i] == init[i];
      }
      if i :| 0 <= i < |txs| && (e in NativeTransferOf(txs[i]) || e in GasOf(txs[i], ctx)) {
        if i < |init| { assert txs[i] == init[i]; }
      }
    }
  }

  // ------------------------------------------------------------------ internal rows

  // An internal row that moves value, with its position in the page.
  datatype Move = Move(it: InternalTx, arrival: nat)

  predicate MovesValue(it: InternalTx) { !it.isError && it.to.Some? && it.value > 0 }

  function ValueMovesFrom(items: seq<InternalTx>, start: nat): (moves: seq<Move>)
    ensures forall i :: 0 <= i < |moves| ==> start <= moves[i].arrival < start + |items| && MovesValue(moves[i].it)
    ensures forall i, j :: 0 <= i < j < |moves| ==> moves[i].arrival < moves[j].arrival
  {
    if items == [] then []
    else if MovesValue(items[0]) then [Move(items[0], start)] + ValueMovesFrom(items[1..], start + 1)
    else ValueMovesFrom(items[1..], start + 1)
  }

  function ValueMoves(items: seq<InternalTx>): seq<Move> { ValueMovesFrom(items, 0) }

  function ItOf(): Move -> InternalTx { (m: Move) => m.it }

  function Its(moves: seq<Move>): (its: seq<InternalTx>)
    ensures |its| == |moves|
  {
    Map(ItOf(), moves)
  }

  lemma {:induction false} ValueMovesIts(items: seq<InternalTx>, start: nat)
    ensures Its(ValueMovesFrom(items, start)) == Filter(MovesValue, items)
  {
    if items != [] {
      ValueMovesIts(items[1..], start + 1);
      var rest := ValueMovesFrom(items[1..], start + 1);
      if MovesValue(items[0]) {
        assert Its([Move(items[0], start)] + rest) == [items[0]] + Its(rest);
      }
    }
  }

  function TxOf(m: Move): string { Lower(m.it.hash) }

  function InTx(txHash: string): Move -> bool { (m: Move) => TxOf(m) == txHash }

  // The value moves of one transaction, in arrival order.
  function Group(moves: seq<Move>, txHash: string): (group: seq<Move>)
    ensures forall m :: m in group <==> m in moves && TxOf(m) == txHash
  {
    FilterMembers(InTx(txHash), moves);
    Filter(InTx(txHash), moves)
  }

  function LabelOf(it: InternalTx): string {
    if it.traceId.Some? then it.traceId.value else ""
  }

  function Labels(its: seq<InternalTx>): (labels: seq<string>)
    ensures |labels| == |its|
  {
    Map(LabelOf, its)
  }

  // The label path is taken when every label is a decimal path and no label repeats.
  predicate Labelled(its: seq<InternalTx>) {
    && (forall i :: 0 <= i < |its| ==> IsDecimalTracePath(LabelOf(its[i])))
    && |ToSet(Labels(its))| == |Labels(its)|
  }

  // What a trace is sorted by: its label, or the transfer it makes.
  datatype OrderKey = ByLabel(trace: string) | ByTuple(from: string, to: string, value: nat)

  function KeyOf(labelled: bool, it: InternalTx): OrderKey {
    if labelled then ByLabel(LabelOf(it))
    else ByTuple(Lower(it.from), Lower(if it.to.Some? then it.to.value else ""), it.value)
  }

  function CompareKeys(a: OrderKey, b: OrderKey): int
    requires a.ByLabel? == b.ByLabel?
  {
    if a.ByLabel? then CompareLabels(a.trace, b.trace)
    else if a.from != b.from then CompareStr(a.from, b.from)
    else if a.to != b.to then CompareStr(a.to, b.to)
    else Sign(a.value - b.value)
  }

  lemma CompareKeysTotalOrder(a: OrderKey, b: OrderKey, c: OrderKey)
    requires a.ByLabel? == b.ByLabel? == c.ByLabel?
    ensures CompareKeys(a, b) == 0 <==> a == b
    ensures CompareKeys(a, b) == -CompareKeys(b, a)
    ensures CompareKeys(a, b) <= 0 && CompareKeys(b, c) <= 0 ==> CompareKeys(a, c) <= 0
  {
    if a.ByLabel? {
      CompareLabelsTotalOrder(a.trace, b.trace, c.trace);
      CompareLabelsTotalOrder(b.trace, c.trace, a.trace);
      CompareLabelsTotalOrder(a.trace, c.trace, b.trace);
    } else {
      CompareStrLaws(a.from, b.from);
      CompareStrLaws(b.from, c.from);
      CompareStrLaws(a.from, c.from);
      CompareStrLaws(a.to, b.to);
      CompareStrLaws(b.to, c.to);
      CompareStrLaws(a.to, c.to);
      if CompareStr(a.from, b.from) <= 0 && CompareStr(b.from, c.from) <= 0 {
        CompareStrTransitive(a.from, b.from, c.from);
      }
      if CompareStr(a.to, b.to) <= 0 && CompareStr(b.to, c.to) <= 0 {
        CompareStrTransitive(a.to, b.to, c.to);
      }
    }
  }

  // The comparator given to sort: primary order, then arrival.
  predicate Before(labelled: bool, a: Move, b: Move) {
    var primary := CompareKeys(KeyOf(labelled, a.it), KeyOf(labelled, b.it));
    primary < 0 || (primary == 0 && a.arrival < b.arrival)
  }

  function MoveOrder(labelled: bool): (Move, Move) -> bool {
    (a: Move, b: Move) => Before(labelled, a, b)
  }

  lemma MoveOrderIsComparator(labelled: bool)
    ensures Comparator(MoveOrder(labelled))
  {
    forall x, y | Before(labelled, x, y) ensures !Before(labelled, y, x) {
      CompareKeysTotalOrder(KeyOf(labelled, x.it), KeyOf(labelled, y.it), KeyOf(labelled, y.it));
    }
    forall x, y, z | !Before(labelled, y, x) && !Before(labelled, z, y) ensures !Before(labelled, z, x) {
      var kx, ky, kz := KeyOf(labelled, x.it), KeyOf(labelled, y.it), KeyOf(labelled, z.it);
      CompareKeysTotalOrder(kx, ky, kz);
      CompareKeysTotalOrder(ky, kz, kx);
      CompareKeysTotalOrder(kz, kx, ky);
    }
  }

  function Sort(labelled: bool, s: seq<Move>): (r: seq<Move>)
    ensures multiset(r) == multiset(s)
    ensures |r| == |s|
  {
    SortBy(MoveOrder(labelled), s)
  }

  // The value moves of a transaction in rank order.
  function Ranked(moves: seq<Move>, txHash: string): seq<Move> {
    var group := Group(moves, txHash);
    Sort(Labelled(Its(group)), group)
  }

  lemma RankedMembers(moves: seq<Move>, txHash: string)
    ensures |Ranked(moves, txHash)| == |Group(moves, txHash)|
    ensures forall m :: m in Ranked(moves, txHash) <==> m in moves && TxOf(m) == txHash
  {
    PermutationFacts(Ranked(moves, txHash), Group(moves, txHash));
  }

  // An internal transfer with rank n in its parent transaction.
  function InternalEvent(it: InternalTx, n: nat): Event {
    var to := Lower(if it.to.Some? then it.to.value else "");
    Event(Key(Lower(it.hash), INTERNAL_SENTINEL_BASE - n, NativeToken), NativeTransfer,
          Lower(it.from), to, it.value, it.block, it.time, Lower(it.from), Some(to))
  }

  // Events come out as their rows came in; the rank shows in the key alone.
  function InternalEvents(moves: seq<Move>): (events: seq<Event>)
    ensures |events| == |moves|
    ensures forall i :: 0 <= i < |moves| ==>
      moves[i] in Ranked(moves, TxOf(moves[i]))
      && events[i] == InternalEvent(moves[i].it, IndexOf(Ranked(moves, TxOf(moves[i])), moves[i]))
  {
    assert forall i :: 0 <= i < |moves| ==> moves[i] in Ranked(moves, TxOf(moves[i])) by {
      forall i | 0 <= i < |moves| ensures moves[i] in Ranked(moves, TxOf(moves[i])) {
        RankedMembers(moves, TxOf(moves[i]));
      }
    }
    seq(|moves|, i requires 0 <= i < |moves| =>
      InternalEvent(moves[i].it, IndexOf(Ranked(moves, TxOf(moves[i])), moves[i])))
  }

  // The events of one transaction's internal transfers, by rank.
  ghost predicate IsRankedEvent(moves: seq<Move>, txHash: string, e: Event) {
    exists n :: 0 <= n < |Ranked(moves, txHash)| && e == InternalEvent(Ranked(moves, txHash)[n].it, n)
  }

  ghost predicate DistinctArrivals(moves: seq<Move>) {
    forall i, j :: 0 <= i < j < |moves| ==> moves[i].arrival != moves[j].arrival
  }

  lemma RankedDistinct(moves: seq<Move>, txHash: string)
    requires Distinct(moves)
    ensures Distinct(Ranked(moves, txHash))
  {
    DistinctFilter(InTx(txHash), moves);
    DistinctPermutation(Group(moves, txHash), Ranked(moves, txHash));
  }

  lemma InternalEventIsRanked(moves: seq<Move>, i: nat)
    requires i < |moves|
    ensures IsRankedEvent(moves, TxOf(moves[i]), InternalEvents(moves)[i])
  {
    var h := TxOf(moves[i]);
    RankedMembers(moves, h);
    var n := IndexOf(Ranked(moves, h), moves[i]);
    assert Ranked(moves, h)[n].it == moves[i].it;
  }

  lemma RankedIsInternalEvent(moves: seq<Move>, h: string, n: nat)
    requires Distinct(moves) && n < |Ranked(moves, h)|
    ensures InternalEvent(Ranked(moves, h)[n].it, n) in InternalEvents(moves)
  {
    RankedMembers(moves, h);
    var m := Ranked(moves, h)[n];
    assert m in Ranked(moves, h);
    var i :| 0 <= i < |moves| && moves[i] == m;
    RankedDistinct(moves, h);
    IndexOfDistinct(Ranked(moves, h), n);
    assert InternalEvents(moves)[i] == InternalEvent(m.it, n);
  }

  lemma InternalEventsMembers(moves: seq<Move>, e: Event)
    requires Distinct(moves)
    ensures e in InternalEvents(moves) <==> IsRankedEvent(moves, e.key.txHash, e)
  {
    if e in InternalEvents(moves) {
      var i :| 0 <= i < |moves| && InternalEvents(moves)[i] == e;
      InternalEventIsRanked(moves, i);
    }
    if IsRankedEvent(moves, e.key.txHash, e) {
      var n :| 0 <= n < |Ranked(moves, e.key.txHash)| && e == InternalEvent(Ranked(moves, e.key.txHash)[n].it, n);
      RankedIsInternalEvent(moves, e.key.txHash, n);
    }
  }

  // ------------------------------------------------------------------ erc20 rows

  function Erc20Event(t: Erc20WithMeta): Event {
    Event(Key(Lower(t.row.hash), t.logIndex, Erc20Token(Lower(t.row.contract))), Erc20TransferKind,
          Lower(t.row.from), Lower(t.row.to), t.row.value, t.row.block, t.row.time, t.txFrom, t.txTo)
  }

  function Erc20Events(rows: seq<Erc20WithMeta>): seq<Event> {
    Map(Erc20Event, rows)
  }

  // ------------------------------------------------------------------ normalize

  // The whole output, in emission order.
  function NormalizedEvents(native: seq<NativeTx>, internals: seq<InternalTx>, erc20: seq<Erc20WithMeta>,
                            ctx: Context): seq<Event>
    requires FeesKnown(native, ctx)
  {
    NativeEvents(native, ctx) + InternalEvents(ValueMoves(internals)) + Erc20Events(erc20)
  }

  // normalize.ts:168-207.
  method EmitNative(native: seq<NativeTx>, ctx: Context) returns (r: Result<seq<Event>, NormalizeError>)
    ensures r.Ok? <==> FeesKnown(native, ctx)
    ensures r.Ok? ==> r.value == NativeEvents(native, ctx)
  {
    var tracked := Lower(ctx.tracked);
    var events: seq<Event> := [];
    for i := 0 to |native|
      invariant FeesKnown(native[..i], ctx)
      invariant events == NativeEvents(native[..i], ctx)
    {
      var tx := native[i];
      ghost var done := native[..i + 1];
      assert done[..i] == native[..i] && done[i] == tx;
      if !tx.isError && tx.value > 0 {
        events := events + NativeTransferOf(tx);
      }
      if Lower(tx.from) == tracked {
        if ctx.feeStrategy == ReceiptsOpstack && Lower(tx.hash) !in ctx.receipts {
          assert !FeeKnown(native[i], ctx);
          return Err(MissingReceipt(Lower(tx.hash)));
        }
        events := events + GasOf(tx, ctx);
      }
      assert FeesKnown(done, ctx);
    }
    assert native[..|native|] == native;
    return Ok(events);
  }

  lemma GroupPush(moves: seq<Move>, i: nat, txHash: string)
    requires i < |moves|
    ensures Group(moves[..i + 1], txHash) ==
            if TxOf(moves[i]) == txHash then Group(moves[..i], txHash) + [moves[i]] else Group(moves[..i], txHash)
  {
    assert moves[..i + 1] == moves[..i] + [moves[i]];
    FilterPush(InTx(txHash), moves[..i], moves[i]);
  }

  lemma {:induction false} GroupEmpty(moves: seq<Move>, txHash: string)
    requires forall m :: m in moves ==> TxOf(m) != txHash
    ensures Group(moves, txHash) == []
  {
    if moves != [] { GroupEmpty(moves[1..], txHash); }
  }

  function ParentTxs(moves: seq<Move>): set<string> {
    set m | m in moves :: TxOf(m)
  }

  ghost predicate GroupsOf(byParentTx: map<string, seq<Move>>, moves: seq<Move>) {
    && byParentTx.Keys == ParentTxs(moves)
    && forall h :: h in byParentTx ==> byParentTx[h] == Group(moves, h)
  }

  lemma ParentTxsPush(done: seq<Move>, m: Move)
    ensures ParentTxs(done + [m]) == ParentTxs(done) + {TxOf(m)}
  {
  }

  lemma GroupsPush(before: map<string, seq<Move>>, moves: seq<Move>, i: nat)
    requires i < |moves| && GroupsOf(before, moves[..i])
    ensures var h := TxOf(moves[i]);
      GroupsOf(before[h := (if h in before then before[h] else []) + [moves[i]]], moves[..i + 1])
  {
    var h := TxOf(moves[i]);
    var after := before[h := (if h in before then before[h] else []) + [moves[i]]];
    assert moves[..i + 1] == moves[..i] + [moves[i]];
    ParentTxsPush(moves[..i], moves[i]);
    forall g | g in after ensures after[g] == Group(moves[..i + 1], g) {
      GroupPush(moves, i, g);
      if g !in before { GroupEmpty(moves[..i], g); }
    }
  }

  // normalize.ts:243-249.
  method GroupByTx(moves: seq<Move>) returns (byParentTx: map<string, seq<Move>>)
    ensures byParentTx.Keys == ParentTxs(moves)
    ensures forall h :: h in byParentTx ==> byParentTx[h] == Group(moves, h)
  {
    byParentTx := map[];
    for i := 0 to |moves|
      invariant GroupsOf(byParentTx, moves[..i])
    {
      var h := TxOf(moves[i]);
      GroupsPush(byParentTx, moves, i);
      byParentTx := byParentTx[h := (if h in byParentTx then byParentTx[h] else []) + [moves[i]]];
    }
    assert moves[..|moves|] == moves;
  }

  ghost predicate RanksOf(moves: seq<Move>, txHash: string, rank: map<nat, nat>) {
    forall k :: 0 <= k < |Ranked(moves, txHash)| ==>
      Ranked(moves, txHash)[k].arrival in rank && rank[Ranked(moves, txHash)[k].arrival] == k
  }

  // Writing the positions of a sorted group into the rank table.
  function AssignRanks(rank: map<nat, nat>, sorted: seq<Move>): map<nat, nat> {
    if sorted == [] then rank
    else AssignRanks(rank, sorted[..|sorted| - 1])[sorted[|sorted| - 1].arrival := |sorted| - 1]
  }

  lemma {:induction false} AssignRanksAt(rank: map<nat, nat>, sorted: seq<Move>, k: nat)
    requires DistinctArrivals(sorted) && k < |sorted|
    ensures sorted[k].arrival in AssignRanks(rank, sorted)
    ensures AssignRanks(rank, sorted)[sorted[k].arrival] == k
  {
    if k < |sorted| - 1 { AssignRanksAt(rank, sorted[..|sorted| - 1], k); }
  }

  lemma {:induction false} AssignRanksKeeps(rank: map<nat, nat>, sorted: seq<Move>, a: nat)
    requires a in rank && forall k :: 0 <= k < |sorted| ==> sorted[k].arrival != a
    ensures a in AssignRanks(rank, sorted)
    ensures AssignRanks(rank, sorted)[a] == rank[a]
  {
    if sorted != [] { AssignRanksKeeps(rank, sorted[..|sorted| - 1], a); }
  }

  lemma RankedDistinctArrivals(moves: seq<Move>, txHash: string)
    requires DistinctArrivals(moves)
    ensures DistinctArrivals(Ranked(moves, txHash))
  {
    assert Distinct(moves);
    RankedMembers(moves, txHash);
    RankedDistinct(moves, txHash);
    var r := Ranked(moves, txHash);
    forall i, j | 0 <= i < j < |r| ensures r[i].arrival != r[j].arrival {
      assert r[i] in r && r[j] in r && r[i] != r[j];
    }
  }

  // normalize.ts:284: .forEach((row, n) => sentinelRank.set(row.arrival, n)).
  method SetRanks(sorted: seq<Move>, rank: map<nat, nat>) returns (r: map<nat, nat>)
    ensures r == AssignRanks(rank, sorted)
  {
    r := rank;
    var n := 0;
    while n < |sorted|
      invariant 0 <= n <= |sorted|
      invariant r == AssignRanks(rank, sorted[..n])
    {
      assert sorted[..n + 1][..n] == sorted[..n];
      r := r[sorted[n].arrival := n];
      n := n + 1;
    }
    assert sorted[..|sorted|] == sorted;
  }

  // normalize.ts:250-285: every move's rank inside its parent transaction.
  method RankAll(moves: seq<Move>, byParentTx: map<string, seq<Move>>) returns (rank: map<nat, nat>)
    requires DistinctArrivals(moves)
    requires byParentTx.Keys == ParentTxs(moves)
    requires forall h :: h in byParentTx ==> byParentTx[h] == Group(moves, h)
    ensures forall h :: h in ParentTxs(moves) ==> RanksOf(moves, h, rank)
  {
    rank := map[];
    var pending := byParentTx.Keys;
    while pending != {}
      invariant pending <= byParentTx.Keys
      invariant forall h :: h in byParentTx.Keys - pending ==> RanksOf(moves, h, rank)
      decreases pending
    {
      var h :| h in pending;
      var before := rank;
      var group := byParentTx[h];
      rank := SetRanks(Sort(Labelled(Its(group)), group), rank);
      RanksAssigned(moves, h, before);
      forall g | g in byParentTx.Keys - pending ensures RanksOf(moves, g, rank) {
        RanksKept(moves, g, h, before);
      }
      pending := pending - {h};
    }
  }

  lemma RanksAssigned(moves: seq<Move>, h: string, rank: map<nat, nat>)
    requires DistinctArrivals(moves)
    ensures RanksOf(moves, h, AssignRanks(rank, Ranked(moves, h)))
  {
    RankedDistinctArrivals(moves, h);
    forall k | 0 <= k < |Ranked(moves, h)| {
      AssignRanksAt(rank, Ranked(moves, h), k);
    }
  }

  lemma RanksKept(moves: seq<Move>, g: string, h: string, rank: map<nat, nat>)
    requires DistinctArrivals(moves) && g != h && RanksOf(moves, g, rank)
    ensures RanksOf(moves, g, AssignRanks(rank, Ranked(moves, h)))
  {
    var mine, other := Ranked(moves, g), Ranked(moves, h);
    RankedMembers(moves, g);
    RankedMembers(moves, h);
    forall k | 0 <= k < |mine|
      ensures mine[k].arrival in AssignRanks(rank, other) && AssignRanks(rank, other)[mine[k].arrival] == k
    {
      assert mine[k] in mine;
      forall j | 0 <= j < |other| ensures other[j].arrival != mine[k].arrival {
        assert other[j] in other;
      }
      AssignRanksKeeps(rank, other, mine[k].arrival);
    }
  }

  lemma RankLookup(moves: seq<Move>, rank: map<nat, nat>, i: nat)
    requires i < |moves| && forall h :: h in ParentTxs(moves) ==> RanksOf(moves, h, rank)
    ensures moves[i].arrival in rank
    ensures InternalEvents(moves)[i] == InternalEvent(moves[i].it, rank[moves[i].arrival])
  {
    var m, h := moves[i], TxOf(moves[i]);
    RankedMembers(moves, h);
    assert h in ParentTxs(moves);
    var n := IndexOf(Ranked(moves, h), m);
    assert Ranked(moves, h)[n].arrival == m.arrival;
  }

  // The events that a complete rank table gives.
  function EventsByRank(moves: seq<Move>, rank: map<nat, nat>): seq<Event>
    requires forall i :: 0 <= i < |moves| ==> moves[i].arrival in rank
  {
    seq(|moves|, i requires 0 <= i < |moves| => InternalEvent(moves[i].it, rank[moves[i].arrival]))
  }

  lemma RankTableComplete(moves: seq<Move>, rank: map<nat, nat>)
    requires forall h :: h in ParentTxs(moves) ==> RanksOf(moves, h, rank)
    ensures forall i :: 0 <= i < |moves| ==> moves[i].arrival in rank
    ensures EventsByRank(moves, rank) == InternalEvents(moves)
  {
    forall i | 0 <= i < |moves|
      ensures moves[i].arrival in rank
      ensures InternalEvents(moves)[i] == InternalEvent(moves[i].it, rank[moves[i].arrival])
    {
      RankLookup(moves, rank, i);
    }
  }

  // normalize.ts:287-322: the missing-rank error cannot happen.
  method EmitRanked(moves: seq<Move>, rank: map<nat, nat>) returns (events: seq<Event>)
    requires forall i :: 0 <= i < |moves| ==> moves[i].arrival in rank
    ensures events == EventsByRank(moves, rank)
  {
    events := [];
    for i := 0 to |moves|
      invariant |events| == i
      invariant forall k :: 0 <= k < i ==> events[k] == InternalEvent(moves[k].it, rank[moves[k].arrival])
    {
      events := events + [InternalEvent(moves[i].it, rank[moves[i].arrival])];
    }
  }

  method EmitInternal(internals: seq<InternalTx>) returns (events: seq<Event>)
    ensures events == InternalEvents(ValueMoves(internals))
  {
    var moves := ValueMoves(internals);
    var byParentTx := GroupByTx(moves);
    var rank := RankAll(moves, byParentTx);
    RankTableComplete(moves, rank);
    events := EmitRanked(moves, rank);
  }

  // normalize.ts:324-351.
  method EmitErc20(erc20: seq<Erc20WithMeta>) returns (events: seq<Event>)
    ensures events == Erc20Events(erc20)
  {
    events := [];
    for i := 0 to |erc20|
      invariant events == Erc20Events(erc20)[..i]
    {
      events := events + [Erc20Event(erc20[i])];
    }
  }

  // normalize.ts:157-354.
  method Normalize(native: seq<NativeTx>, internals: seq<InternalTx>, erc20: seq<Erc20WithMeta>, ctx: Context)
    returns (r: Result<seq<Event>, NormalizeError>)
    ensures r.Ok? <==> FeesKnown(native, ctx)
    ensures r.Ok? ==> r.value == NormalizedEvents(native, internals, erc20, ctx)
  {
    var nativeEvents := EmitNative(native, ctx);
    if nativeEvents.Err? { return nativeEvents; }
    var internalEvents := EmitInternal(internals);
    var erc20Events := EmitErc20(erc20);
    return Ok(nativeEvents.value + internalEvents + erc20Events);
  }
}
