// What the rank-derived sentinels of internal transfers depend on: the set of traces of a whole
// transaction, not their arrival order and not the provider that served them.

module Sentinels {
  import opened Text
  import opened Types
  import opened Sequences
  import opened TraceOrder
  import opened Normalize

  // ------------------------------------------------------------------ arrival order

  function Keys(labelled: bool, moves: seq<Move>): (keys: seq<OrderKey>)
    ensures |keys| == |moves|
    ensures forall i :: 0 <= i < |moves| ==> keys[i] == KeyOf(labelled, moves[i].it)
  {
    Map((m: Move) => KeyOf(labelled, m.it), moves)
  }

  function KeyOrder(): (OrderKey, OrderKey) -> bool {
    (a: OrderKey, b: OrderKey) => if a.ByLabel? == b.ByLabel? then CompareKeys(a, b) < 0 else a.ByLabel?
  }

  lemma SortedKeys(labelled: bool, g: seq<Move>)
    ensures Ordered(KeyOrder(), Keys(labelled, Sort(labelled, g)))
    ensures multiset(Keys(labelled, Sort(labelled, g))) ==
            multiset(Map((it: InternalTx) => KeyOf(labelled, it), Its(g)))
  {
    MoveOrderIsComparator(labelled);
    SortOrdered(MoveOrder(labelled), g);
    var s := Sort(labelled, g);
    forall i, j | 0 <= i < j < |s| ensures !KeyOrder()(Keys(labelled, s)[j], Keys(labelled, s)[i]) {
      assert !MoveOrder(labelled)(s[j], s[i]);
    }
    MapPermutation((m: Move) => KeyOf(labelled, m.it), s, g);
    assert Keys(labelled, g) == Map((it: InternalTx) => KeyOf(labelled, it), Its(g));
  }

  lemma KeyOrderSeparates()
    ensures Separates(KeyOrder())
  {
    forall a, b | !KeyOrder()(a, b) && !KeyOrder()(b, a) ensures a == b {
      CompareKeysTotalOrder(a, b, b);
    }
  }

  lemma SortedKeysAgree(labelled: bool, g1: seq<Move>, g2: seq<Move>)
    requires multiset(Its(g1)) == multiset(Its(g2))
    ensures Keys(labelled, Sort(labelled, g1)) == Keys(labelled, Sort(labelled, g2))
  {
    SortedKeys(labelled, g1);
    SortedKeys(labelled, g2);
    MapPermutation((it: InternalTx) => KeyOf(labelled, it), Its(g1), Its(g2));
    KeyOrderSeparates();
    SortingIsUnique(KeyOrder(), Keys(labelled, Sort(labelled, g1)), Keys(labelled, Sort(labelled, g2)));
  }

  lemma LabelledPermutation(a: seq<InternalTx>, b: seq<InternalTx>)
    requires multiset(a) == multiset(b)
    ensures Labelled(a) == Labelled(b)
  {
    PermutationFacts(a, b);
    MapPermutation(LabelOf, a, b);
    PermutationFacts(Labels(a), Labels(b));
    assert ToSet(Labels(a)) == ToSet(Labels(b));
    if Labelled(a) {
      forall i | 0 <= i < |b| ensures IsDecimalTracePath(LabelOf(b[i])) { assert b[i] in a; }
    }
    if Labelled(b) {
      forall i | 0 <= i < |a| ensures IsDecimalTracePath(LabelOf(a[i])) { assert a[i] in b; }
    }
  }

  // The rows of one transaction agree on its hash, block and time.
  ghost predicate OneTransaction(txHash: string, block: nat, time: int, its: seq<InternalTx>) {
    forall i :: 0 <= i < |its| ==> Lower(its[i].hash) == txHash && its[i].block == block && its[i].time == time
  }

  function EventsInOrder(sorted: seq<Move>): (events: seq<Event>)
    ensures |events| == |sorted|
    ensures forall n :: 0 <= n < |sorted| ==> events[n] == InternalEvent(sorted[n].it, n)
  {
    seq(|sorted|, n requires 0 <= n < |sorted| => InternalEvent(sorted[n].it, n))
  }

  // The events of a group, by rank.
  function RankedEvents(group: seq<Move>): (events: seq<Event>)
    ensures |events| == |group|
  {
    EventsInOrder(Sort(Labelled(Its(group)), group))
  }

  lemma SortedMembers(labelled: bool, g: seq<Move>, n: nat)
    requires n < |g|
    ensures Sort(labelled, g)[n] in g && Sort(labelled, g)[n].it in Its(g)
  {
    SortMembers(MoveOrder(labelled), g);
    var m := Sort(labelled, g)[n];
    assert m in Sort(labelled, g);
    var k :| 0 <= k < |g| && g[k] == m;
    assert Its(g)[k] == m.it;
  }

  // In the label path equal labels inside a group are equal rows.
  lemma LabelNamesRow(its: seq<InternalTx>, a: InternalTx, b: InternalTx)
    requires Labelled(its) && a in its && b in its && LabelOf(a) == LabelOf(b)
    ensures a == b
  {
    var i :| 0 <= i < |its| && its[i] == a;
    var j :| 0 <= j < |its| && its[j] == b;
    SetSize(Labels(its));
    assert Labels(its)[i] == Labels(its)[j];
  }

  lemma SameKeySameEvent(txHash: string, block: nat, time: int, its: seq<InternalTx>, a: InternalTx, b: InternalTx,
                         n: nat)
    requires OneTransaction(txHash, block, time, its) && a in its && b in its
    requires KeyOf(Labelled(its), a) == KeyOf(Labelled(its), b)
    ensures InternalEvent(a, n) == InternalEvent(b, n)
  {
    if Labelled(its) {
      LabelNamesRow(its, a, b);
    }
  }

  // Re-fetching the same traces in any order derives the same events under the same keys.
  lemma ArrivalOrderIrrelevant(txHash: string, block: nat, time: int, g1: seq<Move>, g2: seq<Move>)
    requires multiset(Its(g1)) == multiset(Its(g2))
    requires OneTransaction(txHash, block, time, Its(g1))
    ensures RankedEvents(g1) == RankedEvents(g2)
  {
    LabelledPermutation(Its(g1), Its(g2));
    PermutationFacts(Its(g1), Its(g2));
    var labelled := Labelled(Its(g1));
    var s1, s2 := Sort(labelled, g1), Sort(labelled, g2);
    SortedKeysAgree(labelled, g1, g2);
    forall n | 0 <= n < |g1| ensures InternalEvent(s1[n].it, n) == InternalEvent(s2[n].it, n) {
      SortedMembers(labelled, g1, n);
      SortedMembers(labelled, g2, n);
      assert Keys(labelled, s1)[n] == Keys(labelled, s2)[n];
      SameKeySameEvent(txHash, block, time, Its(g1), s1[n].it, s2[n].it, n);
    }
  }

  // ------------------------------------------------------------------ provider failover

  // A trace as the chain has it, with the label that each provider gives it, if any.
  datatype Trace = Trace(row: InternalTx, labels: map<string, string>)

  function View(t: Trace, provider: string): InternalTx {
    t.row.(traceId := if provider in t.labels then Some(t.labels[provider]) else None)
  }

  function ViewBy(provider: string): Trace -> InternalTx { (t: Trace) => View(t, provider) }

  function Views(traces: seq<Trace>, provider: string): (its: seq<InternalTx>)
    ensures |its| == |traces|
    ensures forall i :: 0 <= i < |its| ==> its[i] == View(traces[i], provider)
  {
    Map(ViewBy(provider), traces)
  }

  // One labelling regime per transaction: both providers' labels are usable or neither's are, and
  // usable labels order any two traces the same way. TreesGiveOneRegime proves it of traces that
  // are calls of one tree, labelled by path or by ordinal.
  ghost predicate OneRegime(traces: seq<Trace>, p: string, q: string) {
    && Labelled(Views(traces, p)) == Labelled(Views(traces, q))
    && (Labelled(Views(traces, p)) ==>
        forall i, j :: 0 <= i < |traces| && 0 <= j < |traces| ==>
          CompareLabels(LabelOf(View(traces[i], p)), LabelOf(View(traces[j], p)))
          == CompareLabels(LabelOf(View(traces[i], q)), LabelOf(View(traces[j], q))))
  }

  // A transaction's traces as one provider's moves, in the chain's own numbering.
  function CanonicalMoves(traces: seq<Trace>, provider: string): (moves: seq<Move>)
    ensures |moves| == |traces|
    ensures forall i :: 0 <= i < |moves| ==> moves[i] == Move(View(traces[i], provider), i)
  {
    seq(|traces|, i requires 0 <= i < |traces| => Move(View(traces[i], provider), i))
  }

  lemma ComparatorsAgree(traces: seq<Trace>, p: string, q: string, labelled: bool, i: nat, j: nat)
    requires OneRegime(traces, p, q) && labelled == Labelled(Views(traces, p))
    requires i < |traces| && j < |traces|
    ensures Before(labelled, Move(View(traces[i], p), i), Move(View(traces[j], p), j))
         == Before(labelled, Move(View(traces[i], q), i), Move(View(traces[j], q), j))
  {
  }

  function Relabel(traces: seq<Trace>, provider: string): Move -> Move {
    (m: Move) => if m.arrival < |traces| then Move(View(traces[m.arrival], provider), m.arrival) else m
  }

  lemma CanonicalIts(traces: seq<Trace>, provider: string)
    ensures Its(CanonicalMoves(traces, provider)) == Views(traces, provider)
  {
  }

  lemma RelabelledEvents(traces: seq<Trace>, p: string, q: string, moves: seq<Move>)
    requires forall m :: m in moves ==> m in CanonicalMoves(traces, p)
    ensures EventsInOrder(Map(Relabel(traces, q), moves)) == EventsInOrder(moves)
  {
    var cp := CanonicalMoves(traces, p);
    forall n | 0 <= n < |moves|
      ensures InternalEvent(Map(Relabel(traces, q), moves)[n].it, n) == InternalEvent(moves[n].it, n) {
      assert moves[n] in moves;
      var i :| 0 <= i < |cp| && cp[i] == moves[n];
    }
  }

  lemma CanonicalAgree(traces: seq<Trace>, p: string, q: string)
    requires OneRegime(traces, p, q)
    ensures RankedEvents(CanonicalMoves(traces, p)) == RankedEvents(CanonicalMoves(traces, q))
  {
    CanonicalIts(traces, p);
    CanonicalIts(traces, q);
    var labelled := Labelled(Views(traces, p));
    var cp, cq, f, less := CanonicalMoves(traces, p), CanonicalMoves(traces, q), Relabel(traces, q),
      MoveOrder(labelled);
    assert cq == Map(f, cp);
    forall x, y | x in cp && y in cp ensures less(x, y) == less(f(x), f(y)) {
      var i :| 0 <= i < |cp| && cp[i] == x;
      var j :| 0 <= j < |cp| && cp[j] == y;
      ComparatorsAgree(traces, p, q, labelled, i, j);
    }
    SortMap(f, less, less, cp);
    SortMembers(less, cp);
    RelabelledEvents(traces, p, q, SortBy(less, cp));
  }

  // Whole transactions served by either provider, in any order, give the same events.
  lemma FailoverIrrelevant(txHash: string, block: nat, time: int, traces: seq<Trace>, p: string, q: string,
                           g1: seq<Move>, g2: seq<Move>)
    requires OneRegime(traces, p, q)
    requires OneTransaction(txHash, block, time, Views(traces, p))
    requires multiset(Its(g1)) == multiset(Views(traces, p))
    requires multiset(Its(g2)) == multiset(Views(traces, q))
    ensures RankedEvents(g1) == RankedEvents(g2)
  {
    CanonicalIts(traces, p);
    CanonicalIts(traces, q);
    assert OneTransaction(txHash, block, time, Views(traces, q)) by {
      forall i | 0 <= i < |traces|
        ensures Views(traces, q)[i].hash == Views(traces, p)[i].hash
        ensures Views(traces, q)[i].block == Views(traces, p)[i].block
        ensures Views(traces, q)[i].time == Views(traces, p)[i].time
      {
      }
    }
    ArrivalOrderIrrelevant(txHash, block, time, CanonicalMoves(traces, p), g1);
    ArrivalOrderIrrelevant(txHash, block, time, CanonicalMoves(traces, q), g2);
    CanonicalAgree(traces, p, q);
  }

  // ------------------------------------------------------------------ the labels providers use

  datatype Scheme = PathScheme | OrdinalScheme

  // The label of the n-th call of a tree in execution order.
  function LabelBy(scheme: Scheme, t: Call, root: seq<nat>, n: nat): string
    requires n < |Preorder(t, root)| && Preorder(t, root)[n] != []
  {
    if scheme == PathScheme then PathLabel(Preorder(t, root)[n]) else OrdinalLabel(n)
  }

  // Traces that are some of the calls of one tree - those that touch the fetched address -, each
  // labelled by a provider in its scheme.
  ghost predicate FromTree(traces: seq<Trace>, t: Call, root: seq<nat>, at: seq<nat>) {
    && |at| == |traces| && Distinct(at)
    && forall i :: 0 <= i < |at| ==> at[i] < |Preorder(t, root)| && Preorder(t, root)[at[i]] != []
  }

  ghost predicate LabelledBy(traces: seq<Trace>, p: string, scheme: Scheme, t: Call, root: seq<nat>, at: seq<nat>)
    requires FromTree(traces, t, root, at)
  {
    forall i :: 0 <= i < |traces| ==> p in traces[i].labels && traces[i].labels[p] == LabelBy(scheme, t, root, at[i])
  }

  // Labels of either scheme are usable, and order calls by execution.
  lemma SchemesAgree(s1: Scheme, s2: Scheme, t: Call, root: seq<nat>, m: nat, n: nat)
    requires m < |Preorder(t, root)| && n < |Preorder(t, root)|
    requires Preorder(t, root)[m] != [] && Preorder(t, root)[n] != []
    ensures IsDecimalTracePath(LabelBy(s1, t, root, m))
    ensures CompareLabels(LabelBy(s1, t, root, m), LabelBy(s1, t, root, n)) ==
            CompareLabels(LabelBy(s2, t, root, m), LabelBy(s2, t, root, n))
    ensures m != n ==> LabelBy(s1, t, root, m) != LabelBy(s1, t, root, n)
  {
    LabellingSchemesAgree(t, root, m, n);
    CompareLabelsTotalOrder(LabelBy(s1, t, root, m), LabelBy(s1, t, root, n), "");
  }

  lemma TreeIsLabelled(traces: seq<Trace>, p: string, scheme: Scheme, t: Call, root: seq<nat>, at: seq<nat>)
    requires FromTree(traces, t, root, at) && LabelledBy(traces, p, scheme, t, root, at)
    ensures Labelled(Views(traces, p))
  {
    var labels := Labels(Views(traces, p));
    forall i | 0 <= i < |traces| ensures IsDecimalTracePath(labels[i]) && labels[i] == LabelBy(scheme, t, root, at[i]) {
      SchemesAgree(scheme, scheme, t, root, at[i], at[i]);
    }
    forall i, j | 0 <= i < j < |labels| ensures labels[i] != labels[j] {
      SchemesAgree(scheme, scheme, t, root, at[i], at[j]);
    }
    SetSize(labels);
  }

  // The regime the ranks need holds of traces of one call tree, whichever of the two schemes each
  // provider uses.
  lemma TreesGiveOneRegime(traces: seq<Trace>, p: string, sp: Scheme, q: string, sq: Scheme, t: Call, root: seq<nat>,
                           at: seq<nat>)
    requires FromTree(traces, t, root, at)
    requires LabelledBy(traces, p, sp, t, root, at) && LabelledBy(traces, q, sq, t, root, at)
    ensures OneRegime(traces, p, q)
  {
    TreeIsLabelled(traces, p, sp, t, root, at);
    TreeIsLabelled(traces, q, sq, t, root, at);
    forall i, j | 0 <= i < |traces| && 0 <= j < |traces|
      ensures CompareLabels(LabelOf(View(traces[i], p)), LabelOf(View(traces[j], p)))
           == CompareLabels(LabelOf(View(traces[i], q)), LabelOf(View(traces[j], q)))
    {
      SchemesAgree(sp, sq, t, root, at[i], at[j]);
    }
  }

  // Ranks survive a failover: a transaction's traces served by a provider with path labels and by
  // one with ordinals, each in any order, derive the same events under the same keys.
  lemma TreeRanksSurviveFailover(txHash: string, block: nat, time: int, traces: seq<Trace>, p: string, sp: Scheme,
                                 q: string, sq: Scheme,
                                 t: Call, root: seq<nat>, at: seq<nat>, g1: seq<Move>, g2: seq<Move>)
    requires FromTree(traces, t, root, at)
    requires LabelledBy(traces, p, sp, t, root, at) && LabelledBy(traces, q, sq, t, root, at)
    requires OneTransaction(txHash, block, time, Views(traces, p))
    requires multiset(Its(g1)) == multiset(Views(traces, p)) && multiset(Its(g2)) == multiset(Views(traces, q))
    ensures RankedEvents(g1) == RankedEvents(g2)
  {
    TreesGiveOneRegime(traces, p, sp, q, sq, t, root, at);
    FailoverIrrelevant(txHash, block, time, traces, p, q, g1, g2);
  }

  // ------------------------------------------------------------------ keys never collide

  ghost predicate DistinctKeys(events: seq<Event>) {
    forall i, j :: 0 <= i < j < |events| ==> events[i].key != events[j].key
  }

  ghost predicate DisjointKeys(a: seq<Event>, b: seq<Event>) {
    forall i, j :: 0 <= i < |a| && 0 <= j < |b| ==> a[i].key != b[j].key
  }

  lemma DistinctKeysConcat(a: seq<Event>, b: seq<Event>)
    requires DistinctKeys(a) && DistinctKeys(b) && DisjointKeys(a, b)
    ensures DistinctKeys(a + b)
  {
  }

  lemma NativeRowKeys(tx: NativeTx, ctx: Context)
    requires FeeKnown(tx, ctx)
    ensures DistinctKeys(NativeTransferOf(tx) + GasOf(tx, ctx))
    ensures forall e :: e in NativeTransferOf(tx) + GasOf(tx, ctx) ==>
      e.key.txHash == Lower(tx.hash) && -2 <= e.key.logIndex <= -1 && e.key.token == NativeToken
  {
  }

  lemma {:induction false} NativeKeys(txs: seq<NativeTx>, ctx: Context)
    requires FeesKnown(txs, ctx)
    requires forall i, j :: 0 <= i < j < |txs| ==> Lower(txs[i].hash) != Lower(txs[j].hash)
    ensures DistinctKeys(NativeEvents(txs, ctx))
    ensures forall e :: e in NativeEvents(txs, ctx) ==>
      -2 <= e.key.logIndex <= -1 && e.key.token == NativeToken
      && exists k :: 0 <= k < |txs| && e.key.txHash == Lower(txs[k].hash)
  {
    if txs != [] {
      var n := |txs| - 1;
      var init, last := txs[..n], txs[n];
      NativeKeys(init, ctx);
      NativeRowKeys(last, ctx);
      var before, added := NativeEvents(init, ctx), NativeTransferOf(last) + GasOf(last, ctx);
      assert NativeEvents(txs, ctx) == before + added;
      forall e | e in before ensures e.key.txHash != Lower(last.hash)
        && exists k :: 0 <= k < |txs| && e.key.txHash == Lower(txs[k].hash)
      {
        var k :| 0 <= k < |init| && e.key.txHash == Lower(init[k].hash);
        assert init[k] == txs[k];
      }
      forall i, j | 0 <= i < |before| && 0 <= j < |added| ensures before[i].key != added[j].key {
        assert before[i] in before && added[j] in added;
      }
      DistinctKeysConcat(before, added);
    }
  }

  lemma InternalKeys(moves: seq<Move>)
    requires Distinct(moves)
    ensures DistinctKeys(InternalEvents(moves))
    ensures forall e :: e in InternalEvents(moves) ==> e.key.logIndex <= -1000 && e.key.token == NativeToken
  {
    var events := InternalEvents(moves);
    forall i, j | 0 <= i < j < |events| ensures events[i].key != events[j].key {
      if TxOf(moves[i]) == TxOf(moves[j]) {
        var r := Ranked(moves, TxOf(moves[i]));
        assert IndexOf(r, moves[i]) != IndexOf(r, moves[j]);
      }
    }
  }

  lemma Erc20Keys(rows: seq<Erc20WithMeta>)
    requires forall i, j :: 0 <= i < j < |rows| ==>
      Lower(rows[i].row.hash) != Lower(rows[j].row.hash) || rows[i].logIndex != rows[j].logIndex
    ensures DistinctKeys(Erc20Events(rows))
    ensures forall e :: e in Erc20Events(rows) ==> e.key.token.Erc20Token?
  {
    var events := Erc20Events(rows);
    forall i, j | 0 <= i < j < |events| ensures events[i].key != events[j].key {
      assert events[i] == Erc20Event(rows[i]) && events[j] == Erc20Event(rows[j]);
    }
  }

  // One page of transactions never gives two events the same idempotency key: native, gas,
  // internal and erc20 events have keys of their own.
  lemma KeysPairwiseDistinct(native: seq<NativeTx>, internals: seq<InternalTx>, erc20: seq<Erc20WithMeta>, ctx: Context)
    requires FeesKnown(native, ctx)
    requires forall i, j :: 0 <= i < j < |native| ==> Lower(native[i].hash) != Lower(native[j].hash)
    requires forall i, j :: 0 <= i < j < |erc20| ==>
      Lower(erc20[i].row.hash) != Lower(erc20[j].row.hash) || erc20[i].logIndex != erc20[j].logIndex
    ensures DistinctKeys(NormalizedEvents(native, internals, erc20, ctx))
  {
    var moves := ValueMoves(internals);
    assert Distinct(moves);
    NativeKeys(native, ctx);
    InternalKeys(moves);
    Erc20Keys(erc20);
    var a, b, c := NativeEvents(native, ctx), InternalEvents(moves), Erc20Events(erc20);
    forall i, j | 0 <= i < |a| && 0 <= j < |b| ensures a[i].key != b[j].key {
      assert a[i] in a && b[j] in b;
    }
    DistinctKeysConcat(a, b);
    forall i, j | 0 <= i < |a + b| && 0 <= j < |c| ensures (a + b)[i].key != c[j].key {
      assert c[j] in c && (a + b)[i] in a + b;
      assert (a + b)[i] in a || (a + b)[i] in b;
    }
    DistinctKeysConcat(a + b, c);
  }

  // The rank is taken over the traces fetched for ONE address, and the key has no address in it:
  // two tracked addresses paid inside one transaction derive the same key for different moves.
  lemma TwoAddressCollision() returns (toA: InternalTx, toB: InternalTx)
    ensures toA.to == Some("0xa") && toB.to == Some("0xb") && toA.hash == toB.hash
    ensures |RankedEvents([Move(toA, 0)])| == |RankedEvents([Move(toB, 0)])| == 1
    ensures RankedEvents([Move(toA, 0)])[0].key == RankedEvents([Move(toB, 0)])[0].key
    ensures RankedEvents([Move(toA, 0)])[0].amount == 1 && RankedEvents([Move(toB, 0)])[0].amount == 2
  {
    toA := InternalTx(7, 0, "0x1", "0xc", Some("0xa"), 1, false, Some("0"));
    toB := InternalTx(7, 0, "0x1", "0xc", Some("0xb"), 2, false, Some("1"));
    SingletonRank(Move(toA, 0));
    SingletonRank(Move(toB, 0));
  }

  lemma SingletonRank(m: Move)
    ensures RankedEvents([m]) == [InternalEvent(m.it, 0)]
  {
    var labelled := Labelled(Its([m]));
    assert [m][..0] == [];
    assert SortBy(MoveOrder(labelled), [m]) == InsertBy(MoveOrder(labelled), m, []);
  }
}
