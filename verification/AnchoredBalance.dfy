// The balance of an anchored native stream (packages/ingestion/src/processors/anchor.ts,
// write/anchor-writer.ts, packages/ledger/src/fold.ts): opening row plus covered events is the
// full-history balance.

module AnchoredBalance {
  import opened Text
  import opened Types
  import opened Sequences
  import opened ChainModel
  import opened Store
  import opened Ingest
  import opened Protocol
  import opened Ledger
  import opened LedgerLaws

  // The chain's canonical events by block, and when blocks are.
  datatype History = History(events: nat -> seq<Event>, time: nat -> int)

  ghost predicate HistoryOf(setup: Setup, h: History) { BlocksHold(setup, h) && NoRepeats(h) && Dated(h) }

  ghost predicate BlocksHold(setup: Setup, h: History) {
    forall b: nat, e: Event :: e in h.events(b) <==> setup.canonical(e) && e.block == b
  }

  ghost predicate NoRepeats(h: History) { forall b: nat :: Distinct(h.events(b)) }

  ghost predicate Dated(h: History) {
    forall b: nat, e: Event :: e in h.events(b) ==> e.time == h.time(b)
  }

  ghost predicate TimeOrdered(h: History) {
    forall a: nat, b: nat :: a <= b ==> h.time(a) <= h.time(b)
  }

  // All events of the blocks [from, from + n).
  ghost function Span(h: History, from: nat, n: nat): seq<Event> {
    if n == 0 then [] else Span(h, from, n - 1) + h.events(from + n - 1)
  }

  // The full-history balance at the end of block n.
  ghost function TrueBalance(setup: Setup, h: History, n: nat): int {
    Balance(Span(h, 0, n + 1), Lower(setup.tracked), NativeToken, None)
  }

  lemma {:induction false} SpanMembers(setup: Setup, h: History, from: nat, n: nat, e: Event)
    requires HistoryOf(setup, h)
    ensures e in Span(h, from, n) <==> from <= e.block < from + n && setup.canonical(e)
  {
    if n > 0 {
      SpanMembers(setup, h, from, n - 1, e);
      assert e in h.events(from + n - 1) <==> setup.canonical(e) && e.block == from + n - 1;
    }
  }

  lemma DistinctConcat<T>(a: seq<T>, b: seq<T>)
    requires Distinct(a) && Distinct(b) && forall x :: x in a ==> x !in b
    ensures Distinct(a + b)
  {
    var s := a + b;
    forall i, j | 0 <= i < j < |s| ensures s[i] != s[j] {
      if i < |a| <= j { assert a[i] in a && b[j - |a|] in b; }
    }
  }

  lemma {:induction false} SpanDistinct(setup: Setup, h: History, from: nat, n: nat)
    requires HistoryOf(setup, h)
    ensures Distinct(Span(h, from, n))
  {
    if n > 0 {
      SpanDistinct(setup, h, from, n - 1);
      var last := h.events(from + n - 1);
      assert Distinct(last);
      forall e: Event | e in Span(h, from, n - 1) ensures e !in last {
        SpanMembers(setup, h, from, n - 1, e);
      }
      DistinctConcat(Span(h, from, n - 1), last);
    }
  }

  lemma {:induction false} SpanSplit(h: History, from: nat, m: nat, n: nat)
    ensures Span(h, from, m + n) == Span(h, from, m) + Span(h, from + m, n)
  {
    if n > 0 { SpanSplit(h, from, m, n - 1); }
  }

  // Two repetition-free lists of the same things are permutations of each other.
  lemma SameMembersPermute<T(!new)>(a: seq<T>, b: seq<T>)
    requires Distinct(a) && Distinct(b) && forall x :: x in a <==> x in b
    ensures multiset(a) == multiset(b)
  {
    DistinctCounts(a);
    DistinctCounts(b);
    forall x ensures multiset(a)[x] == multiset(b)[x] {
      assert x in a <==> x in multiset(a);
      assert x in b <==> x in multiset(b);
    }
  }

  // ------------------------------------------------------------------ what the fold reads

  // Any enumeration of the stored rows.
  ghost predicate Enumerates(rows: seq<Event>, store: map<Key, Event>) {
    Distinct(rows) && forall e :: e in rows <==> e.key in store && store[e.key] == e
  }

  function UpToTime(t: int): Event -> bool { (e: Event) => e.time <= t }

  lemma {:induction false} BalanceAsOf(rows: seq<Event>, addr: string, token: Token, t: int)
    ensures Balance(rows, addr, token, Some(t)) == Balance(Filter(UpToTime(t), rows), addr, token, None)
  {
    if rows != [] {
      var n := |rows| - 1;
      BalanceAsOf(rows[..n], addr, token, t);
      assert rows == rows[..n] + [rows[n]];
      FilterPush(UpToTime(t), rows[..n], rows[n]);
      var kept := Filter(UpToTime(t), rows[..n]);
      if rows[n].time <= t {
        assert (kept + [rows[n]])[..|kept|] == kept;
      }
    }
  }

  // Rows stored at or below the anchor that are not its opening.
  function IsEarly(block: nat): Event -> bool { (e: Event) => e.block <= block && e.kind != OpeningBalance }

  ghost function EarlyRows(setup: Setup, rows: seq<Event>): seq<Event>
    requires setup.anchor.Some?
  {
    Filter(IsEarly(setup.anchor.value.block), rows)
  }

  ghost function OpeningRows(setup: Setup): seq<Event>
    requires setup.anchor.Some?
  {
    if setup.anchor.value.balance(NativeToken) > 0 then [OpeningRow(setup.tracked, setup.anchor.value, NativeToken)]
    else []
  }

  ghost predicate OpeningStored(setup: Setup, store: map<Key, Event>)
    requires setup.anchor.Some?
  {
    forall e :: e in OpeningRows(setup) ==> e.key in store && store[e.key] == e
  }

  // Providers told the truth about the anchor: its block is the last one not after its time, and
  // the attested balance is the balance of the chain's own history.
  ghost predicate TrueAnchor(setup: Setup, h: History) {
    && setup.anchor.Some? && setup.stream == NativeStream
    && h.time(setup.anchor.value.block) <= setup.anchor.value.time < h.time(setup.anchor.value.block + 1)
    && setup.anchor.value.balance(NativeToken) == TrueBalance(setup, h, setup.anchor.value.block) >= 0
    && Lower(setup.tracked) != ZERO_ADDRESS
  }

  // No canonical event is an opening, and the native stream's events are in the native token.
  ghost predicate NativeTruth(setup: Setup) {
    forall e :: setup.canonical(e) ==> e.kind != OpeningBalance && e.key.token == NativeToken
  }

  // Only the native opening is an opening of the native stream.
  ghost predicate OpeningsNative(store: map<Key, Event>) {
    forall k :: k in store && store[k].kind == OpeningBalance ==> store[k].key.token == NativeToken
  }

  // What a fold as of t reads: the opening, any early rows, and every event of the blocks between
  // the anchor and the last block not after t.
  lemma ReadAsOf(setup: Setup, h: History, s: State, rows: seq<Event>, t: int, n: nat)
    requires ValidSetup(setup) && Inv(setup, s) && HistoryOf(setup, h) && TimeOrdered(h) && TrueAnchor(setup, h)
    requires NativeTruth(setup) && OpeningsNative(s.store) && OpeningStored(setup, s.store) && Enumerates(rows, s.store)
    requires setup.anchor.value.time <= t && setup.anchor.value.block <= n <= s.high && h.time(n) <= t < h.time(n + 1)
    ensures multiset(Filter(UpToTime(t), rows)) ==
            multiset(OpeningRows(setup) + EarlyRows(setup, rows)
                     + Span(h, setup.anchor.value.block + 1, n - setup.anchor.value.block))
  {
    DistinctFilter(UpToTime(t), rows);
    ExpectedDistinct(setup, h, rows, n);
    forall e ensures e in Filter(UpToTime(t), rows) <==>
        e in OpeningRows(setup) + EarlyRows(setup, rows)
          + Span(h, setup.anchor.value.block + 1, n - setup.anchor.value.block)
    {
      ReadMember(setup, h, s, rows, t, n, e);
    }
    SameMembersPermute(Filter(UpToTime(t), rows),
      OpeningRows(setup) + EarlyRows(setup, rows)
        + Span(h, setup.anchor.value.block + 1, n - setup.anchor.value.block));
  }

  lemma ExpectedDistinct(setup: Setup, h: History, rows: seq<Event>, n: nat)
    requires setup.anchor.Some? && HistoryOf(setup, h) && NativeTruth(setup) && Distinct(rows)
             && setup.anchor.value.block <= n
    ensures Distinct(OpeningRows(setup) + EarlyRows(setup, rows)
                     + Span(h, setup.anchor.value.block + 1, n - setup.anchor.value.block))
  {
    var a := setup.anchor.value;
    var o, early, later := OpeningRows(setup), EarlyRows(setup, rows), Span(h, a.block + 1, n - a.block);
    DistinctFilter(IsEarly(a.block), rows);
    SpanDistinct(setup, h, a.block + 1, n - a.block);
    FilterMembers(IsEarly(a.block), rows);
    DistinctConcat(o, early);
    forall e: Event | e in o + early ensures e !in later {
      SpanMembers(setup, h, a.block + 1, n - a.block, e);
    }
    DistinctConcat(o + early, later);
  }

  lemma ReadMember(setup: Setup, h: History, s: State, rows: seq<Event>, t: int, n: nat, e: Event)
    requires ValidSetup(setup) && Inv(setup, s) && HistoryOf(setup, h) && TimeOrdered(h) && TrueAnchor(setup, h)
    requires NativeTruth(setup) && OpeningsNative(s.store) && OpeningStored(setup, s.store) && Enumerates(rows, s.store)
    requires setup.anchor.value.time <= t && setup.anchor.value.block <= n <= s.high && h.time(n) <= t < h.time(n + 1)
    ensures e in Filter(UpToTime(t), rows) <==>
            e in OpeningRows(setup) + EarlyRows(setup, rows)
              + Span(h, setup.anchor.value.block + 1, n - setup.anchor.value.block)
  {
    var a := setup.anchor.value;
    FilterMembers(UpToTime(t), rows);
    FilterMembers(IsEarly(a.block), rows);
    SpanMembers(setup, h, a.block + 1, n - a.block, e);
    assert e in rows <==> e.key in s.store && s.store[e.key] == e;
    if setup.canonical(e) {
      assert e in h.events(e.block);
      assert e.time == h.time(e.block);
      if e.block <= n { assert h.time(e.block) <= h.time(n); } else { assert h.time(n + 1) <= h.time(e.block); }
    }
  }

  // An anchored stream reports the full-history balance, plus whatever was stored of the blocks the
  // opening already covers.
  lemma AnchoredBalanceIs(setup: Setup, h: History, s: State, rows: seq<Event>, t: int, n: nat)
    requires ValidSetup(setup) && Inv(setup, s) && HistoryOf(setup, h) && TimeOrdered(h) && TrueAnchor(setup, h)
    requires NativeTruth(setup) && OpeningsNative(s.store) && OpeningStored(setup, s.store) && Enumerates(rows, s.store)
    requires setup.anchor.value.time <= t && setup.anchor.value.block <= n <= s.high && h.time(n) <= t < h.time(n + 1)
    ensures Balance(rows, Lower(setup.tracked), NativeToken, Some(t)) ==
            TrueBalance(setup, h, n) + Balance(EarlyRows(setup, rows), Lower(setup.tracked), NativeToken, None)
  {
    var later := LaterRows(setup, h, n);
    ReadAsOf(setup, h, s, rows, t, n);
    OpeningCounts(setup, h);
    BalanceAsOf(rows, Lower(setup.tracked), NativeToken, t);
    BalanceOfParts(Filter(UpToTime(t), rows), OpeningRows(setup), EarlyRows(setup, rows), later, Lower(setup.tracked));
  }

  // The events after the anchor, with what they add to the balance there.
  lemma LaterRows(setup: Setup, h: History, n: nat) returns (later: seq<Event>)
    requires setup.anchor.Some? && setup.anchor.value.block <= n
    ensures later == Span(h, setup.anchor.value.block + 1, n - setup.anchor.value.block)
    ensures TrueBalance(setup, h, n) ==
            TrueBalance(setup, h, setup.anchor.value.block) + Balance(later, Lower(setup.tracked), NativeToken, None)
  {
    later := Span(h, setup.anchor.value.block + 1, n - setup.anchor.value.block);
    TrueBalanceSplits(setup, h, setup.anchor.value.block, n);
  }

  lemma BalanceOfParts(read: seq<Event>, o: seq<Event>, early: seq<Event>, later: seq<Event>, addr: string)
    requires multiset(read) == multiset(o + early + later)
    ensures Balance(read, addr, NativeToken, None) ==
            Balance(o, addr, NativeToken, None) + Balance(early, addr, NativeToken, None)
              + Balance(later, addr, NativeToken, None)
  {
    BalancePermutation(read, o + early + later, addr, NativeToken, None);
    BalanceConcat(o + early, later, addr, NativeToken, None);
    BalanceConcat(o, early, addr, NativeToken, None);
  }

  lemma TrueBalanceSplits(setup: Setup, h: History, a: nat, n: nat)
    requires a <= n
    ensures TrueBalance(setup, h, n) ==
            TrueBalance(setup, h, a) + Balance(Span(h, a + 1, n - a), Lower(setup.tracked), NativeToken, None)
  {
    assert Span(h, 0, n + 1) == Span(h, 0, a + 1) + Span(h, a + 1, n - a) by {
      SpanSplit(h, 0, a + 1, n - a);
      assert (a + 1) + (n - a) == n + 1;
    }
    BalanceOfBoth(Span(h, 0, n + 1), Span(h, 0, a + 1), Span(h, a + 1, n - a), Lower(setup.tracked));
  }

  lemma BalanceOfBoth(all: seq<Event>, a: seq<Event>, b: seq<Event>, addr: string)
    requires all == a + b
    ensures Balance(all, addr, NativeToken, None) ==
            Balance(a, addr, NativeToken, None) + Balance(b, addr, NativeToken, None)
  {
    BalanceConcat(a, b, addr, NativeToken, None);
  }

  // The opening stands for the whole history up to the anchor.
  lemma OpeningCounts(setup: Setup, h: History)
    requires TrueAnchor(setup, h)
    ensures Balance(OpeningRows(setup), Lower(setup.tracked), NativeToken, None) ==
            TrueBalance(setup, h, setup.anchor.value.block)
  {
    var a := setup.anchor.value;
    if a.balance(NativeToken) > 0 {
      SingletonBalance(OpeningRow(setup.tracked, a, NativeToken), Lower(setup.tracked), NativeToken, None);
    }
  }

  // ------------------------------------------------------------------ over runs

  predicate Anchors(steps: seq<Step>) { exists i :: 0 <= i < |steps| && steps[i].AnchorCommit? }

  // Rows are never taken out.
  lemma StepKeepsRows(setup: Setup, s: State, step: Step, k: Key)
    requires Enabled(setup, s, step) && k in s.store
    ensures k in Apply(setup, s, step).store && Apply(setup, s, step).store[k] == s.store[k]
  {
    match step
    case CommitJob(id) => if s.jobs[id].outcome.Commit? { InsertAllFacts(s.store, s.jobs[id].outcome.events); }
    case AnchorCommit(id) => InsertAllFacts(s.store, s.jobs[id].rows);
    case _ =>
  }

  lemma {:induction false} RunKeepsRows(setup: Setup, s: State, steps: seq<Step>, k: Key)
    requires IsRun(setup, s, steps) && k in s.store
    ensures k in After(setup, s, steps).store && After(setup, s, steps).store[k] == s.store[k]
    decreases |steps|
  {
    if steps != [] {
      StepKeepsRows(setup, s, steps[0], k);
      RunKeepsRows(setup, Apply(setup, s, steps[0]), steps[1..], k);
    }
  }

  // Once an anchor job has committed, its opening is stored for good, re-runs or not.
  lemma {:induction false} AnchoringStoresOpening(setup: Setup, s: State, steps: seq<Step>)
    requires ValidSetup(setup) && Inv(setup, s) && IsRun(setup, s, steps) && Anchors(steps)
    requires setup.anchor.Some? && setup.stream == NativeStream
    ensures OpeningStored(setup, After(setup, s, steps).store)
    decreases |steps|
  {
    var s1 := Apply(setup, s, steps[0]);
    InvStep(setup, s, steps[0]);
    if steps[0].AnchorCommit? {
      var job := s.jobs[steps[0].id];
      assert JobValid(setup, s.high, job);
      assert job.rows == OpeningRows(setup);
      InsertKeepsSound(setup, s.store, job.rows);
      forall e | e in OpeningRows(setup)
        ensures e.key in After(setup, s, steps).store && After(setup, s, steps).store[e.key] == e
      {
        RunKeepsRows(setup, s1, steps[1..], e.key);
      }
    } else {
      var i :| 0 <= i < |steps| && steps[i].AnchorCommit?;
      assert steps[1..][i - 1].AnchorCommit?;
      AnchoringStoresOpening(setup, s1, steps[1..]);
    }
  }

  // No page job reads the checkpoint before the first anchor commit.
  ghost predicate AnchoredFirst(setup: Setup, s: State, steps: seq<Step>)
    requires IsRun(setup, s, steps)
    decreases |steps|
  {
    steps == []
    || ((steps[0].Read? ==> s.cp.anchorBlock.Some?) && AnchoredFirst(setup, Apply(setup, s, steps[0]), steps[1..]))
  }

  // Every page job works above the anchor, so nothing early is stored.
  ghost predicate AboveAnchor(setup: Setup, s: State)
    requires setup.anchor.Some?
  {
    var a := setup.anchor.value.block;
    && (s.cp.anchorBlock.Some? ==> s.cp.cursor >= a)
    && (forall id :: id in s.jobs ==> match s.jobs[id]
          case Reading(before) => before.cursor >= a
          case Ready(before, o) => before.cursor >= a
          case AnchorReady(_, block) => block == a)
    && (forall k :: k in s.store ==> IsOpening(setup, s.store[k]) || s.store[k].block > a)
  }

  lemma AboveAnchorStep(setup: Setup, s: State, step: Step)
    requires ValidSetup(setup) && Inv(setup, s) && setup.anchor.Some? && AboveAnchor(setup, s)
             && Enabled(setup, s, step)
    requires step.Read? ==> s.cp.anchorBlock.Some?
    ensures AboveAnchor(setup, Apply(setup, s, step))
  {
    match step
    case CommitJob(id) =>
      var job := s.jobs[id];
      assert JobValid(setup, s.high, job);
      if job.outcome.Commit? {
        InsertAllFacts(s.store, job.outcome.events);
        var s' := Apply(setup, s, step);
        forall k | k in s'.store ensures IsOpening(setup, s'.store[k]) || s'.store[k].block > setup.anchor.value.block {
          if k !in s.store { assert s'.store[k] in job.outcome.events; }
        }
      }
    case AnchorCommit(id) =>
      assert JobValid(setup, s.high, s.jobs[id]);
      InsertAllFacts(s.store, s.jobs[id].rows);
      var s' := Apply(setup, s, step);
      forall k | k in s'.store ensures IsOpening(setup, s'.store[k]) || s'.store[k].block > setup.anchor.value.block {
        if k !in s.store { assert s'.store[k] in s.jobs[id].rows; }
      }
    case _ =>
  }

  lemma {:induction false} AboveAnchorRun(setup: Setup, s: State, steps: seq<Step>)
    requires ValidSetup(setup) && Inv(setup, s) && setup.anchor.Some? && AboveAnchor(setup, s)
    requires IsRun(setup, s, steps) && AnchoredFirst(setup, s, steps)
    ensures AboveAnchor(setup, After(setup, s, steps))
    decreases |steps|
  {
    if steps != [] {
      AboveAnchorStep(setup, s, steps[0]);
      InvStep(setup, s, steps[0]);
      AboveAnchorRun(setup, Apply(setup, s, steps[0]), steps[1..]);
    }
  }

  lemma OpeningsAreNative(setup: Setup, s: State)
    requires ValidSetup(setup) && Inv(setup, s) && NativeTruth(setup) && NativeOpenings(setup, s.store)
    ensures OpeningsNative(s.store)
  {
  }

  ghost predicate NativeOpenings(setup: Setup, store: map<Key, Event>) {
    forall k :: k in store && IsOpening(setup, store[k]) ==> store[k].key.token == NativeToken
  }

  lemma {:induction false} NativeOpeningsRun(setup: Setup, s: State, steps: seq<Step>)
    requires ValidSetup(setup) && Inv(setup, s) && setup.stream == NativeStream && NativeTruth(setup)
             && NativeOpenings(setup, s.store)
    requires IsRun(setup, s, steps)
    ensures NativeOpenings(setup, After(setup, s, steps).store)
    decreases |steps|
  {
    if steps != [] {
      var s1 := Apply(setup, s, steps[0]);
      NativeOpeningsStep(setup, s, steps[0]);
      InvStep(setup, s, steps[0]);
      NativeOpeningsRun(setup, s1, steps[1..]);
    }
  }

  lemma NativeOpeningsStep(setup: Setup, s: State, step: Step)
    requires ValidSetup(setup) && Inv(setup, s) && setup.stream == NativeStream && NativeTruth(setup)
             && NativeOpenings(setup, s.store)
    requires Enabled(setup, s, step)
    ensures NativeOpenings(setup, Apply(setup, s, step).store)
  {
    match step
    case CommitJob(id) =>
      assert JobValid(setup, s.high, s.jobs[id]);
      if s.jobs[id].outcome.Commit? {
        InsertAllFacts(s.store, s.jobs[id].outcome.events);
        var s' := Apply(setup, s, step);
        forall k | k in s'.store && IsOpening(setup, s'.store[k]) ensures s'.store[k].key.token == NativeToken {
          if k !in s.store { assert s'.store[k] in s.jobs[id].outcome.events; }
        }
      }
    case AnchorCommit(id) =>
      assert JobValid(setup, s.high, s.jobs[id]);
      InsertAllFacts(s.store, s.jobs[id].rows);
      var s' := Apply(setup, s, step);
      forall k | k in s'.store && IsOpening(setup, s'.store[k]) ensures s'.store[k].key.token == NativeToken {
        if k !in s.store { assert s'.store[k] in s.jobs[id].rows; }
      }
    case _ =>
  }

  // The rows of an anchored stream after any run, as the theorems below read them.
  ghost predicate AnchoredRun(setup: Setup, h: History, s: State, steps: seq<Step>, rows: seq<Event>, t: int, n: nat) {
    && ValidSetup(setup) && Initial(s) && IsRun(setup, s, steps) && Anchors(steps)
    && HistoryOf(setup, h) && TimeOrdered(h) && TrueAnchor(setup, h) && NativeTruth(setup)
    && Enumerates(rows, After(setup, s, steps).store)
    && setup.anchor.value.time <= t && setup.anchor.value.block <= n <= After(setup, s, steps).high
      && h.time(n) <= t < h.time(n + 1)
  }

  lemma AnchoredRunIs(setup: Setup, h: History, s: State, steps: seq<Step>, rows: seq<Event>, t: int, n: nat)
    requires AnchoredRun(setup, h, s, steps, rows, t, n)
    ensures Balance(rows, Lower(setup.tracked), NativeToken, Some(t)) ==
            TrueBalance(setup, h, n) + Balance(EarlyRows(setup, rows), Lower(setup.tracked), NativeToken, None)
  {
    var s' := After(setup, s, steps);
    InvInitial(setup, s);
    InvRun(setup, s, steps);
    AnchoringStoresOpening(setup, s, steps);
    NativeOpeningsRun(setup, s, steps);
    OpeningsAreNative(setup, s');
    AnchoredBalanceIs(setup, h, s', rows, t, n);
  }

  // After any run of anchor and backfill jobs on an anchored native stream, re-runs included, the
  // fold as of t reports the full-history balance at the last block not after t - exactly when the
  // rows stored at or below the anchor cancel out.
  lemma AnchoredRunBalance(setup: Setup, h: History, s: State, steps: seq<Step>, rows: seq<Event>, t: int, n: nat)
    requires AnchoredRun(setup, h, s, steps, rows, t, n)
    ensures Balance(rows, Lower(setup.tracked), NativeToken, Some(t)) == TrueBalance(setup, h, n)
       <==> Balance(EarlyRows(setup, rows), Lower(setup.tracked), NativeToken, None) == 0
    ensures AnchoredFirst(setup, s, steps)
            ==> Balance(rows, Lower(setup.tracked), NativeToken, Some(t)) == TrueBalance(setup, h, n)
  {
    AnchoredRunIs(setup, h, s, steps, rows, t, n);
    if AnchoredFirst(setup, s, steps) { AnchoredFirstNoneEarly(setup, s, steps, rows); }
  }

  lemma AnchoredFirstNoneEarly(setup: Setup, s: State, steps: seq<Step>, rows: seq<Event>)
    requires ValidSetup(setup) && setup.anchor.Some? && Initial(s) && IsRun(setup, s, steps)
             && AnchoredFirst(setup, s, steps)
    requires Enumerates(rows, After(setup, s, steps).store)
    ensures EarlyRows(setup, rows) == []
  {
    InvInitial(setup, s);
    AboveAnchorRun(setup, s, steps);
    NothingEarly(setup, After(setup, s, steps), rows);
  }

  // Rows that another tracked address's stream stored, of blocks the opening covers.
  ghost predicate Covered(setup: Setup, h: History, foreign: seq<Event>)
    requires setup.anchor.Some?
  {
    forall e :: e in foreign ==> e.block <= setup.anchor.value.block && e.time == h.time(e.block)
  }

  lemma {:induction false} AllNotAfter(rows: seq<Event>, addr: string, token: Token, t: int)
    requires forall e :: e in rows ==> e.time <= t
    ensures Balance(rows, addr, token, Some(t)) == Balance(rows, addr, token, None)
  {
    if rows != [] {
      assert rows[|rows| - 1] in rows;
      AllNotAfter(rows[..|rows| - 1], addr, token, t);
    }
  }

  // The table of events is shared: with rows of covered blocks in it that came through another tracked
  // address, an anchored stream that stored nothing early itself is off by exactly what those rows
  // did to the address.
  lemma ForeignRowsShift(setup: Setup, h: History, s: State, steps: seq<Step>, rows: seq<Event>, t: int, n: nat,
                         foreign: seq<Event>)
    requires AnchoredRun(setup, h, s, steps, rows, t, n) && AnchoredFirst(setup, s, steps) && Covered(setup, h, foreign)
    ensures Balance(rows + foreign, Lower(setup.tracked), NativeToken, Some(t)) ==
            TrueBalance(setup, h, n) + Balance(foreign, Lower(setup.tracked), NativeToken, None)
  {
    AnchoredRunBalance(setup, h, s, steps, rows, t, n);
    BalanceConcat(rows, foreign, Lower(setup.tracked), NativeToken, Some(t));
    forall e | e in foreign ensures e.time <= t {
      assert h.time(e.block) <= h.time(setup.anchor.value.block);
    }
    AllNotAfter(foreign, Lower(setup.tracked), NativeToken, t);
  }

  lemma NothingEarly(setup: Setup, s: State, rows: seq<Event>)
    requires setup.anchor.Some? && AboveAnchor(setup, s) && Enumerates(rows, s.store)
    ensures EarlyRows(setup, rows) == []
  {
    FilterAllOrNone(IsEarly(setup.anchor.value.block), rows, false);
  }

  // ------------------------------------------------------------------ what early rows do

  // A block-1 transfer of 5 to the tracked address, fetched before the stream is anchored at block 1.
  const EARLY := Event(Key("0x1", -1, NativeToken), NativeTransfer, "0xb", "0xa", 5, 1, 7, "0xb", Some("0xa"))

  const EARLY_ANCHOR := Anchor(1, 8, (t: Token) => if t == NativeToken then 5 else 0)

  const EARLY_SETUP := Setup("0xa", NativeStream, (e: Event) => e == EARLY, (b: nat) => true, Some(EARLY_ANCHOR))

  const OPENING := OpeningRow("0xa", EARLY_ANCHOR, NativeToken)

  const EARLY_RUN := [Read(0), FetchWindow(0, Commit([EARLY], 1, Live)), CommitJob(0), AnchorFetch(1, [OPENING]),
                      AnchorCommit(1)]

  // A target added with an anchor date, whose page job ran before its anchor job.
  const EARLY_START := State(map[], Checkpoint(Anchoring, 0, None), map[], 0)

  const EARLY_END := State(map[EARLY.key := EARLY, OPENING.key := OPENING], Checkpoint(Backfilling, 1, Some(1)),
                           map[], 1)

  const EARLY_HISTORY := History((b: nat) => if b == 1 then [EARLY] else [], (b: nat) => 7 * b)

  // A run that stores a row the opening already covers counts it twice, everything else being as it
  // should: the anchor is the true one, the history is that of the chain.
  lemma EarlyRowCountsTwice()
    ensures AnchoredRun(EARLY_SETUP, EARLY_HISTORY, EARLY_START, EARLY_RUN, [EARLY, OPENING], 8, 1)
    ensures TrueBalance(EARLY_SETUP, EARLY_HISTORY, 1) == 5
    ensures Balance([EARLY, OPENING], Lower(EARLY_SETUP.tracked), NativeToken, Some(8)) == 10
  {
    EarlyRunEnds();
    EarlyRunIsOne();
    EarlyTruth();
    EarlyBalances();
    AnchoredRunFrom(EARLY_SETUP, EARLY_HISTORY, EARLY_START, EARLY_RUN, EARLY_END, [EARLY, OPENING], 8, 1);
  }

  lemma AnchoredRunFrom(setup: Setup, h: History, s: State, steps: seq<Step>, end: State, rows: seq<Event>, t: int,
                        n: nat)
    requires ValidSetup(setup) && Initial(s) && IsRun(setup, s, steps) && After(setup, s, steps) == end
             && Anchors(steps)
    requires HistoryOf(setup, h) && TimeOrdered(h) && TrueAnchor(setup, h) && NativeTruth(setup)
             && Enumerates(rows, end.store)
    requires setup.anchor.value.time <= t && setup.anchor.value.block <= n <= end.high && h.time(n) <= t < h.time(n + 1)
    ensures AnchoredRun(setup, h, s, steps, rows, t, n)
  {
  }

  lemma EarlyRunIsOne()
    ensures ValidSetup(EARLY_SETUP) && NativeTruth(EARLY_SETUP) && Initial(EARLY_START) && Anchors(EARLY_RUN)
    ensures Enumerates([EARLY, OPENING], EARLY_END.store)
  {
    assert OPENING.key.logIndex == -3 && EARLY.key.logIndex == -1;
    assert EARLY_RUN[4].AnchorCommit?;
  }

  lemma EarlyTrueBalance()
    ensures TrueBalance(EARLY_SETUP, EARLY_HISTORY, 1) == 5
  {
    var h := EARLY_HISTORY;
    assert Span(h, 0, 1) == Span(h, 0, 0) + h.events(0) == [];
    assert Span(h, 0, 2) == Span(h, 0, 1) + h.events(1) == [EARLY];
    assert Lower("0xa") == "0xa";
    SingletonBalance(EARLY, "0xa", NativeToken, None);
  }

  lemma EarlyTruth()
    ensures TrueBalance(EARLY_SETUP, EARLY_HISTORY, 1) == 5
    ensures HistoryOf(EARLY_SETUP, EARLY_HISTORY) && TimeOrdered(EARLY_HISTORY)
            && TrueAnchor(EARLY_SETUP, EARLY_HISTORY)
  {
    EarlyTrueBalance();
    EarlyHistoryHolds();
    assert Lower("0xa")[2] == 'a';
  }

  lemma EarlyHistoryHolds()
    ensures HistoryOf(EARLY_SETUP, EARLY_HISTORY) && TimeOrdered(EARLY_HISTORY)
  {
  }

  lemma EarlyRunEnds()
    ensures IsRun(EARLY_SETUP, EARLY_START, EARLY_RUN) && After(EARLY_SETUP, EARLY_START, EARLY_RUN) == EARLY_END
  {
    var s1 := EARLY_START.(jobs := map[0 := Reading(EARLY_START.cp)]);
    var o := Commit([EARLY], 1, Live);
    var s2 := EARLY_START.(jobs := map[0 := Ready(EARLY_START.cp, o)]);
    var s3 := State(map[EARLY.key := EARLY], Checkpoint(Live, 1, None), map[], 1);
    var s4 := s3.(jobs := map[1 := AnchorReady([OPENING], 1)]);
    assert OPENING.key.logIndex == -3 && EARLY.key.logIndex == -1;
    assert Apply(EARLY_SETUP, EARLY_START, EARLY_RUN[0]) == s1;
    assert Apply(EARLY_SETUP, s1, EARLY_RUN[1]) == s2;
    assert CanonicalCommit(EARLY_SETUP, 0, o);
    assert [EARLY][..0] == [] && [OPENING][..0] == [];
    assert InsertAll(map[], [EARLY]) == map[EARLY.key := EARLY];
    assert Apply(EARLY_SETUP, s2, EARLY_RUN[2]) == s3;
    assert AnchorRows(EARLY_SETUP, [OPENING]);
    assert Apply(EARLY_SETUP, s3, EARLY_RUN[3]) == s4;
    assert InsertAll(s3.store, [OPENING]) == EARLY_END.store;
    assert Apply(EARLY_SETUP, s4, EARLY_RUN[4]) == EARLY_END;
    RunOfFive(EARLY_SETUP, EARLY_START, s1, s2, s3, s4, EARLY_END, EARLY_RUN);
  }

  lemma EarlyBalances()
    ensures Balance([EARLY, OPENING], "0xa", NativeToken, Some(8)) == 10
    ensures Balance([EARLY], "0xa", NativeToken, Some(8)) == 5
  {
    BalanceConcat([EARLY], [OPENING], "0xa", NativeToken, Some(8));
    SingletonBalance(EARLY, "0xa", NativeToken, Some(8));
    SingletonBalance(OPENING, "0xa", NativeToken, Some(8));
    assert [EARLY] + [OPENING] == [EARLY, OPENING];
    assert Lower("0xa") == "0xa";
  }

  lemma RunOfFive(setup: Setup, s0: State, s1: State, s2: State, s3: State, s4: State, s5: State, steps: seq<Step>)
    requires |steps| == 5
    requires Enabled(setup, s0, steps[0]) && Apply(setup, s0, steps[0]) == s1
    requires Enabled(setup, s1, steps[1]) && Apply(setup, s1, steps[1]) == s2
    requires Enabled(setup, s2, steps[2]) && Apply(setup, s2, steps[2]) == s3
    requires Enabled(setup, s3, steps[3]) && Apply(setup, s3, steps[3]) == s4
    requires Enabled(setup, s4, steps[4]) && Apply(setup, s4, steps[4]) == s5
    ensures IsRun(setup, s0, steps) && After(setup, s0, steps) == s5
  {
    LastStep(setup, s4, s5, steps[4..]);
    MoreSteps(setup, s3, s4, s5, steps[3..]);
    MoreSteps(setup, s2, s3, s5, steps[2..]);
    MoreSteps(setup, s1, s2, s5, steps[1..]);
    MoreSteps(setup, s0, s1, s5, steps);
  }

  lemma LastStep(setup: Setup, s: State, s': State, steps: seq<Step>)
    requires |steps| == 1 && Enabled(setup, s, steps[0]) && Apply(setup, s, steps[0]) == s'
    ensures IsRun(setup, s, steps) && After(setup, s, steps) == s'
  {
  }

  lemma MoreSteps(setup: Setup, s: State, s': State, end: State, steps: seq<Step>)
    requires |steps| > 1 && Enabled(setup, s, steps[0]) && Apply(setup, s, steps[0]) == s'
    requires IsRun(setup, s', steps[1..]) && After(setup, s', steps[1..]) == end
    ensures IsRun(setup, s, steps) && After(setup, s, steps) == end
  {
  }
}
