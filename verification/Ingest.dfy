// One ingestion run (packages/ingestion/src/processors/ingest.ts): what it decides from a fetched
// window, and what it commits.

module Ingest {
  import opened Text
  import opened Types
  import opened Sequences
  import opened Normalize
  import opened LogIndex
  import opened ChainModel
  import opened Committable
  import opened Store

  // ------------------------------------------------------------------ the cursor

  datatype PageLabel = NativePage | InternalPage | Erc20Page

  // ingest.ts:39-48.
  datatype FetchedPage = FetchedPage(tag: PageLabel, itemCount: nat, lastBlock: Option<nat>)

  function PageOf<R>(tag: PageLabel, blockOf: R -> nat, items: seq<R>): FetchedPage {
    FetchedPage(tag, |items|, if items == [] then None else Some(blockOf(items[|items| - 1])))
  }

  function PagesOf(f: Fetch): (pages: seq<FetchedPage>)
    ensures pages != []
  {
    match f
    case NativeFetch(native, internals, _) =>
      [PageOf(NativePage, NativeBlock(), native)]
      + (if internals.Some? then [PageOf(InternalPage, InternalBlock(), internals.value)] else [])
    case Erc20Fetch(rows, _) => [PageOf(Erc20Page, Erc20Block(), rows)]
  }

  function PageCandidate(p: FetchedPage, safe: int): int {
    if p.itemCount >= PAGE_LIMIT && p.lastBlock.Some? then p.lastBlock.value - 1 else safe
  }

  predicate IsFull(p: FetchedPage) { p.itemCount >= PAGE_LIMIT }

  datatype Resolved = Resolved(full: bool, newCursor: int, stalled: seq<FetchedPage>)

  function MinCandidate(pages: seq<FetchedPage>, safe: int): int
    requires pages != []
  {
    var first := PageCandidate(pages[0], safe);
    if |pages| == 1 then first
    else
      var rest := MinCandidate(pages[1..], safe);
      if first <= rest then first else rest
  }

  lemma {:induction false} MinCandidateIsLeast(pages: seq<FetchedPage>, safe: int)
    requires pages != []
    ensures forall p :: p in pages ==> MinCandidate(pages, safe) <= PageCandidate(p, safe)
    ensures exists p :: p in pages && MinCandidate(pages, safe) == PageCandidate(p, safe)
  {
    assert pages == [pages[0]] + pages[1..];
    if |pages| > 1 {
      MinCandidateIsLeast(pages[1..], safe);
      var rest :| rest in pages[1..] && MinCandidate(pages[1..], safe) == PageCandidate(rest, safe);
      assert rest in pages;
    }
    assert pages[0] in pages;
  }

  // ingest.ts:66-78.
  function ResolveCursor(pages: seq<FetchedPage>, safe: int): Resolved
    requires pages != []
  {
    var newCursor := MinCandidate(pages, safe);
    Resolved(
      exists p :: p in pages && IsFull(p),
      newCursor,
      Filter((p: FetchedPage) => IsFull(p) && PageCandidate(p, safe) == newCursor, pages))
  }

  // ------------------------------------------------------------------ one run

  datatype IngestError = FetchFailed | Stalled(pages: seq<FetchedPage>)

  datatype Outcome =
    | Skip
    | Fail(error: IngestError)
    | Commit(events: seq<Event>, newCursor: int, status: Status)

  function UpTo(block: int): Event -> bool { (e: Event) => e.block <= block }

  // ingest.ts:89-116: nothing is fetched when the safe head is not above the cursor.
  predicate NothingToFetch(cursor: nat, safe: int) { cursor + 1 > safe }

  // What a run commits once it has fetched its window (ingest.ts:126-203).
  ghost function Decide(cfg: Config, cursor: nat, safe: int, f: Fetch): Outcome {
    var events := EventsOf(cfg, f);
    var resolved := ResolveCursor(PagesOf(f), safe);
    if events.Err? then Fail(FetchFailed)
    else if resolved.full && resolved.newCursor <= cursor then Fail(Stalled(resolved.stalled))
    else Commit(Filter(UpTo(resolved.newCursor), events.value), resolved.newCursor,
                if resolved.full then Backfilling else Live)
  }

  datatype IngestResult = IngestResult(status: Status, lastProcessedBlock: int, inserted: nat)

  // The processing of a fetched window (ingest.ts:126-160).
  method EventsOfFetch(cfg: Config, f: Fetch) returns (r: Result<seq<Event>, FetchError>)
    ensures r == EventsOf(cfg, f)
  {
    match f
    case NativeFetch(native, internals, receipts) =>
      var normalized := Normalize.Normalize(native, InternalsOf(f), [],
                                            Context(cfg.tracked, cfg.feeStrategy, receipts));
      return if normalized.Ok? then Ok(normalized.value) else Err(NoReceipt);
    case Erc20Fetch(rows, receipts) =>
      var enriched := AssignErc20Metadata(rows, receipts);
      if enriched.Err? { return Err(NoLog); }
      var normalized := Normalize.Normalize([], [], enriched.value, Context(cfg.tracked, cfg.feeStrategy, map[]));
      assert InternalEvents(ValueMoves([])) == [];
      assert normalized.value == Erc20Events(enriched.value);
      ghost var all := Erc20EventsOf(rows, receipts);
      forall i | 0 <= i < |rows|
        ensures Enriched(rows[i], Assigned(rows, receipts).value[i], receipts, enriched.value[i]) {}
      assert all.Ok? && all.value == Erc20Events(enriched.value) by {
        forall i | 0 <= i < |rows| ensures Lower(rows[i].hash) in receipts { GivenMatches(rows, receipts, i); }
        assert enriched.value == EnrichAll(rows, Assigned(rows, receipts).value, receipts);
      }
      return Ok(normalized.value);
  }

  // ingest.ts:162-203: stall check and withholding, on derived events.
  method DecideFetch(cfg: Config, cursor: nat, safe: int, f: Fetch) returns (o: Outcome)
    ensures o == Decide(cfg, cursor, safe, f) && !o.Skip?
  {
    var events := EventsOfFetch(cfg, f);
    if events.Err? { return Fail(FetchFailed); }
    var resolved := ResolveCursor(PagesOf(f), safe);
    if resolved.full && resolved.newCursor <= cursor {
      return Fail(Stalled(resolved.stalled));
    }
    return Commit(Filter(UpTo(resolved.newCursor), events.value), resolved.newCursor,
                  if resolved.full then Backfilling else Live);
  }

  ghost predicate RunResult(cp: Checkpoint, before: map<Key, Event>, o: Outcome,
                            cp': Checkpoint, after: map<Key, Event>, r: Result<IngestResult, IngestError>)
  {
    match o
    case Skip => r == Ok(IngestResult(cp.status, cp.cursor, 0)) && after == before && cp' == cp
    case Fail(error) => r == Err(error) && after == before && cp' == cp
    case Commit(events, newCursor, status) =>
      && after == InsertAll(before, events)
      && cp' == AdvanceCheckpoint(cp, newCursor, status)
      && r.Ok? && r.value.status == status && r.value.lastProcessedBlock == newCursor
      && |after| == |before| + r.value.inserted
  }

  // `o` is what a run over this checkpoint comes to, when `provider` answers the window it asks for.
  ghost predicate IsOutcome(cfg: Config, cp: Checkpoint, safe: int, provider: (nat, int) -> Fetch, o: Outcome) {
    if NothingToFetch(cp.cursor, safe) then o == Skip
    else forall f :: f == provider(cp.cursor + 1, safe) ==> o == Decide(cfg, cp.cursor, safe, f)
  }

  lemma OutcomeUnique(cfg: Config, cp: Checkpoint, safe: int, provider: (nat, int) -> Fetch, o: Outcome, o': Outcome)
    requires IsOutcome(cfg, cp, safe, provider, o) && IsOutcome(cfg, cp, safe, provider, o')
    ensures o == o'
  {
    if !NothingToFetch(cp.cursor, safe) {
      var f := provider(cp.cursor + 1, safe);
      assert o == Decide(cfg, cp.cursor, safe, f);
    }
  }

  // A run with nothing to fetch.
  lemma SkipOutcome(cfg: Config, cp: Checkpoint, store: map<Key, Event>, safe: int, provider: (nat, int) -> Fetch)
    requires NothingToFetch(cp.cursor, safe)
    ensures IsOutcome(cfg, cp, safe, provider, Skip)
    ensures RunResult(cp, store, Skip, cp, store, Ok(IngestResult(cp.status, cp.cursor, 0)))
  {
  }

  // ingest.ts:80-205. The second commit of the skip branch (ingest.ts:117) is never reached:
  // fromBlock > safe means safe <= cursor.
  method IngestOnce(db: Database, cfg: Config, head: int, finalityDepth: nat, provider: (nat, int) -> Fetch)
    returns (r: Result<IngestResult, IngestError>, ghost o: Outcome)
    requires db.Valid()
    modifies db
    ensures db.Valid()
    ensures IsOutcome(cfg, old(db.checkpoint), head - finalityDepth, provider, o)
    ensures RunResult(old(db.checkpoint), old(db.store), o, db.checkpoint, db.store, r)
  {
    var cp := db.checkpoint;
    var safe := head - finalityDepth;
    var fromBlock := cp.cursor + 1;
    if fromBlock > safe {
      SkipOutcome(cfg, cp, db.store, safe, provider);
      return Ok(IngestResult(cp.status, cp.cursor, 0)), Skip;
    }
    var decided := DecideRun(cfg, cp, safe, provider);
    r := CommitOutcome(db, decided);
    o := decided;
  }

  method DecideRun(cfg: Config, cp: Checkpoint, safe: int, provider: (nat, int) -> Fetch) returns (o: Outcome)
    requires !NothingToFetch(cp.cursor, safe)
    ensures IsOutcome(cfg, cp, safe, provider, o) && !o.Skip?
  {
    o := DecideFetch(cfg, cp.cursor, safe, provider(cp.cursor + 1, safe));
  }

  // ingest.ts:162-204: the effect of a decided outcome.
  method CommitOutcome(db: Database, o: Outcome) returns (r: Result<IngestResult, IngestError>)
    requires db.Valid() && !o.Skip?
    modifies db
    ensures db.Valid() && RunResult(old(db.checkpoint), old(db.store), o, db.checkpoint, db.store, r)
  {
    match o {
      case Fail(error) =>
        return Err(error);
      case Commit(events, newCursor, status) =>
        var inserted := db.CommitPage(events, newCursor, status);
        return Ok(IngestResult(status, newCursor, inserted));
    }
  }

  // A stalled run names the pages it stalled on: those that are full behind the least candidate.
  lemma StalledPagesNamed(pages: seq<FetchedPage>, safe: int)
    requires pages != []
    ensures var r := ResolveCursor(pages, safe);
      && (r.full <==> exists p :: p in pages && p.itemCount >= 1000)
      && (forall p :: p in r.stalled <==> p in pages && p.itemCount >= 1000 && PageCandidate(p, safe) == r.newCursor)
      && (r.full && r.newCursor < safe - 1 ==> exists p :: p in r.stalled && p.lastBlock == Some(r.newCursor + 1))
  {
    MinCandidateIsLeast(pages, safe);
    var newCursor := MinCandidate(pages, safe);
    FilterMembers((p: FetchedPage) => IsFull(p) && PageCandidate(p, safe) == newCursor, pages);
    var q :| q in pages && newCursor == PageCandidate(q, safe);
  }

  // ------------------------------------------------------------------ what a run commits

  lemma CursorBelowCandidates(cfg: Config, f: Fetch, safe: int)
    ensures var newCursor := ResolveCursor(PagesOf(f), safe).newCursor;
      match f
      case NativeFetch(native, internals, _) =>
        && newCursor <= Candidate(NativeBlock(), native, safe)
        && (internals.Some? ==> newCursor <= Candidate(InternalBlock(), internals.value, safe))
      case Erc20Fetch(rows, _) => newCursor <= Candidate(Erc20Block(), rows, safe)
  {
    MinCandidateIsLeast(PagesOf(f), safe);
    match f
    case NativeFetch(native, internals, _) =>
      assert PagesOf(f)[0] in PagesOf(f);
      if internals.Some? { assert PagesOf(f)[1] in PagesOf(f); }
    case Erc20Fetch(rows, _) =>
      assert PagesOf(f)[0] in PagesOf(f);
  }

  lemma CursorInWindow(cfg: Config, chain: Chain, cursor: nat, safe: int, f: Fetch)
    requires Honest(cfg, chain, cursor + 1, safe, f) && cursor < safe
    ensures cursor <= ResolveCursor(PagesOf(f), safe).newCursor <= safe
    ensures !ResolveCursor(PagesOf(f), safe).full ==> ResolveCursor(PagesOf(f), safe).newCursor == safe
  {
    var pages := PagesOf(f);
    MinCandidateIsLeast(pages, safe);
    forall p | p in pages ensures cursor <= PageCandidate(p, safe) <= safe {
      match f
      case NativeFetch(native, internals, _) =>
        if p == pages[0] && |native| > 0 { assert cursor + 1 <= NativeBlock()(native[|native| - 1]) <= safe; }
        if internals.Some? && p == pages[1] && |internals.value| > 0 {
          assert cursor + 1 <= InternalBlock()(internals.value[|internals.value| - 1]) <= safe;
        }
      case Erc20Fetch(rows, _) =>
        if |rows| > 0 { assert cursor + 1 <= Erc20Block()(rows[|rows| - 1]) <= safe; }
    }
  }

  lemma NativeFetchCanonical(cfg: Config, chain: Chain, from: nat, safe: int, f: Fetch, upto: int, e: Event)
    requires f.NativeFetch? && WellFormed(cfg, chain) && Honest(cfg, chain, from, safe, f) && EventsOf(cfg, f).Ok?
    requires upto <= safe && upto <= Candidate(NativeBlock(), f.native, safe)
    requires f.internals.Some? ==> upto <= Candidate(InternalBlock(), f.internals.value, safe)
    ensures e in EventsOf(cfg, f).value && e.block <= upto
            <==> from <= e.block <= upto && Canonical(cfg, chain, e.block, e)
  {
    var ctx := Context(cfg.tracked, cfg.feeStrategy, f.receipts);
    var b := e.block;
    FeesOfBlock(cfg, chain, b);
    NativeRowsAt(cfg, chain);
    PageCovers(chain.native, NativeBlock(), from, safe, f.native, upto);
    if e in NativeEvents(f.native, ctx) && b <= upto {
      NativeForward(cfg, chain, from, f.native, f.receipts, upto, e);
    }
    if from <= b <= upto && e in NativeEvents(chain.native(b), FullContext(cfg, chain)) {
      NativeBackward(cfg, chain, from, f.native, f.receipts, upto, e);
    }
    if f.internals.Some? {
      var p :| p in chain.providers && ServedBy(chain, p, from, safe, f.internals.value);
      InternalCommit(cfg, chain, p, from, safe, f.internals.value, upto, e);
    }
    assert Erc20Events([]) == [];
  }

  lemma Erc20FetchCanonical(cfg: Config, chain: Chain, from: nat, safe: int, f: Fetch, upto: int, e: Event)
    requires f.Erc20Fetch? && WellFormed(cfg, chain) && Honest(cfg, chain, from, safe, f) && EventsOf(cfg, f).Ok?
    requires upto <= safe && upto <= Candidate(Erc20Block(), f.rows, safe)
    ensures e in EventsOf(cfg, f).value && e.block <= upto
            <==> from <= e.block <= upto && Canonical(cfg, chain, e.block, e)
  {
    if e in EventsOf(cfg, f).value && e.block <= upto {
      Erc20Forward(cfg, chain, from, safe, f.rows, f.receipts, upto, e);
    }
    if from <= e.block <= upto && Canonical(cfg, chain, e.block, e) {
      Erc20Backward(cfg, chain, from, safe, f.rows, f.receipts, upto, e);
    }
  }

  lemma FetchCanonical(cfg: Config, chain: Chain, from: nat, safe: int, f: Fetch, e: Event)
    requires WellFormed(cfg, chain) && Honest(cfg, chain, from, safe, f) && EventsOf(cfg, f).Ok?
    requires ResolveCursor(PagesOf(f), safe).newCursor <= safe
    ensures var upto := ResolveCursor(PagesOf(f), safe).newCursor;
      e in EventsOf(cfg, f).value && e.block <= upto <==> from <= e.block <= upto && Canonical(cfg, chain, e.block, e)
  {
    var upto := ResolveCursor(PagesOf(f), safe).newCursor;
    CursorBelowCandidates(cfg, f, safe);
    if f.NativeFetch? {
      NativeFetchCanonical(cfg, chain, from, safe, f, upto, e);
    } else {
      Erc20FetchCanonical(cfg, chain, from, safe, f, upto, e);
    }
  }

  lemma DecideCommits(cfg: Config, cursor: nat, safe: int, f: Fetch)
    requires Decide(cfg, cursor, safe, f).Commit?
    ensures EventsOf(cfg, f).Ok?
    ensures var o, resolved := Decide(cfg, cursor, safe, f), ResolveCursor(PagesOf(f), safe);
      && o.newCursor == resolved.newCursor && (resolved.full ==> cursor < o.newCursor)
      && o.status == (if resolved.full then Backfilling else Live)
      && o.events == Filter(UpTo(o.newCursor), EventsOf(cfg, f).value)
  {
  }

  lemma FilterUpTo(events: seq<Event>, block: int, e: Event)
    ensures e in Filter(UpTo(block), events) <==> e in events && e.block <= block
  {
    FilterMembers(UpTo(block), events);
  }

  // The new cursor of a run is a real advance inside the window.
  lemma CommitAdvances(cfg: Config, chain: Chain, cursor: nat, safe: int, f: Fetch)
    requires cursor < safe && Honest(cfg, chain, cursor + 1, safe, f)
    requires Decide(cfg, cursor, safe, f).Commit?
    ensures cursor < Decide(cfg, cursor, safe, f).newCursor <= safe
    ensures Decide(cfg, cursor, safe, f).status == Backfilling || Decide(cfg, cursor, safe, f).newCursor == safe
  {
    DecideCommits(cfg, cursor, safe, f);
    CursorInWindow(cfg, chain, cursor, safe, f);
  }

  // A run commits exactly the canonical events above its old cursor and up to its new one.
  lemma CommitIsCanonical(cfg: Config, chain: Chain, cursor: nat, safe: int, f: Fetch, e: Event)
    requires WellFormed(cfg, chain) && cursor < safe && Honest(cfg, chain, cursor + 1, safe, f)
    requires Decide(cfg, cursor, safe, f).Commit?
    ensures var o := Decide(cfg, cursor, safe, f);
      e in o.events <==> cursor < e.block <= o.newCursor && Canonical(cfg, chain, e.block, e)
  {
    DecideCommits(cfg, cursor, safe, f);
    CommitAdvances(cfg, chain, cursor, safe, f);
    FetchCanonical(cfg, chain, cursor + 1, safe, f, e);
    FilterUpTo(EventsOf(cfg, f).value, Decide(cfg, cursor, safe, f).newCursor, e);
  }
}
