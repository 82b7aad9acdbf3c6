// The backfill job and its re-enqueue chain (apps/worker/src/backfill.ts), and the tail tick that
// hands streams back to it (packages/ingestion/src/processors/tail.ts).

module Backfill {
  import opened Text
  import opened Types
  import opened Sequences
  import opened ChainModel
  import opened Windows
  import opened Store
  import opened Ingest

  // ------------------------------------------------------------------ when a run stalls

  // A full page whose last block is the window's first holds nothing else, so that block has at
  // least a page of rows; and such a block leaves room for no other.
  lemma PageStuck<R(!new)>(rowsAt: nat -> seq<R>, blockOf: R -> nat, from: nat, to: int, items: seq<R>)
    requires IsPage(rowsAt, blockOf, from, to, items) && from <= to
    ensures |items| == PAGE_LIMIT && blockOf(items[|items| - 1]) == from <==> |rowsAt(from)| >= PAGE_LIMIT
  {
    var here := AtBlock(blockOf, items, from);
    if |items| == PAGE_LIMIT && blockOf(items[|items| - 1]) == from {
      forall r | r in items ensures OnBlock(blockOf, from)(r) {
        var i :| 0 <= i < |items| && items[i] == r;
      }
      FilterAllOrNone(OnBlock(blockOf, from), items, true);
      MultisetSizes(here, rowsAt(from));
    } else {
      assert multiset(here) == multiset(rowsAt(from));
      PermutationFacts(here, rowsAt(from));
      if |items| == PAGE_LIMIT {
        var n := |items| - 1;
        assert items == items[..n] + [items[n]];
        FilterPush(OnBlock(blockOf, from), items[..n], items[n]);
      }
    }
  }

  // The rows of some endpoint fill a whole page at this block.
  predicate BlockFillsPage(cfg: Config, chain: Chain, b: nat) {
    match cfg.stream
    case NativeStream => |chain.native(b)| >= PAGE_LIMIT || (chain.hasInternal && |chain.traces(b)| >= PAGE_LIMIT)
    case Erc20Stream => |chain.erc20(b)| >= PAGE_LIMIT
  }

  predicate Stuck(p: FetchedPage, cursor: nat) { p.itemCount >= PAGE_LIMIT && p.lastBlock == Some(cursor + 1) }

  lemma StallIsStuckPage(cursor: nat, safe: int, pages: seq<FetchedPage>)
    requires cursor < safe && pages != [] && cursor <= ResolveCursor(pages, safe).newCursor
    ensures var r := ResolveCursor(pages, safe);
      r.full && r.newCursor <= cursor <==> exists p :: p in pages && Stuck(p, cursor)
  {
    var r := ResolveCursor(pages, safe);
    MinCandidateIsLeast(pages, safe);
    if r.full && r.newCursor <= cursor {
      var p :| p in pages && r.newCursor == PageCandidate(p, safe);
      assert Stuck(p, cursor);
    }
    if p :| p in pages && Stuck(p, cursor) {
      assert r.newCursor <= PageCandidate(p, safe) == cursor && IsFull(p);
    }
  }

  lemma StuckPage<R(!new)>(rowsAt: nat -> seq<R>, tag: PageLabel, blockOf: R -> nat, cursor: nat, to: int,
                           items: seq<R>)
    requires IsPage(rowsAt, blockOf, cursor + 1, to, items) && cursor < to
    ensures Stuck(PageOf(tag, blockOf, items), cursor) <==> |rowsAt(cursor + 1)| >= PAGE_LIMIT
  {
    PageStuck(rowsAt, blockOf, cursor + 1, to, items);
  }

  lemma StuckInternalPage(chain: Chain, cursor: nat, to: int, items: seq<InternalTx>)
    requires cursor < to && exists p :: p in chain.providers && ServedBy(chain, p, cursor + 1, to, items)
    ensures Stuck(PageOf(InternalPage, InternalBlock(), items), cursor) <==> |chain.traces(cursor + 1)| >= PAGE_LIMIT
  {
    var p :| p in chain.providers && ServedBy(chain, p, cursor + 1, to, items);
    StuckPage(ServedTraces(chain, p), InternalPage, InternalBlock(), cursor, to, items);
    assert |ServedTraces(chain, p)(cursor + 1)| == |chain.traces(cursor + 1)|;
  }

  lemma StuckPageIsFullBlock(cfg: Config, chain: Chain, cursor: nat, safe: int, f: Fetch)
    requires cursor < safe && Honest(cfg, chain, cursor + 1, safe, f)
    ensures (exists p :: p in PagesOf(f) && Stuck(p, cursor)) <==> BlockFillsPage(cfg, chain, cursor + 1)
  {
    match f
    case NativeFetch(native, internals, _) =>
      StuckPage(chain.native, NativePage, NativeBlock(), cursor, safe, native);
      if internals.Some? { StuckInternalPage(chain, cursor, safe, internals.value); }
      NativePages(f, cursor);
    case Erc20Fetch(rows, _) =>
      StuckPage(chain.erc20, Erc20Page, Erc20Block(), cursor, safe, rows);
      assert PagesOf(f)[0] in PagesOf(f);
  }

  lemma NativePages(f: Fetch, cursor: nat)
    requires f.NativeFetch?
    ensures (exists p :: p in PagesOf(f) && Stuck(p, cursor)) <==>
      Stuck(PageOf(NativePage, NativeBlock(), f.native), cursor)
      || (f.internals.Some? && Stuck(PageOf(InternalPage, InternalBlock(), f.internals.value), cursor))
  {
    assert PagesOf(f)[0] in PagesOf(f);
    if f.internals.Some? { assert PagesOf(f)[1] in PagesOf(f); }
  }

  // The rows of some endpoint in a window reach a page.
  predicate WindowFillsPage(cfg: Config, chain: Chain, from: nat, to: int) {
    match cfg.stream
    case NativeStream =>
      WindowRows(chain.native, from, to) >= PAGE_LIMIT
        || (chain.hasInternal && WindowRows(chain.traces, from, to) >= PAGE_LIMIT)
    case Erc20Stream => WindowRows(chain.erc20, from, to) >= PAGE_LIMIT
  }

  lemma FullInternalPage(chain: Chain, from: nat, to: int, items: seq<InternalTx>)
    requires from <= to && exists p :: p in chain.providers && ServedBy(chain, p, from, to, items)
    ensures |items| == PAGE_LIMIT <==> WindowRows(chain.traces, from, to) >= PAGE_LIMIT
    ensures |items| <= PAGE_LIMIT
  {
    var p :| p in chain.providers && ServedBy(chain, p, from, to, items);
    PageFullIffWindow(ServedTraces(chain, p), InternalBlock(), from, to, items);
    SameWindow(ServedTraces(chain, p), chain.traces, from, to);
  }

  // Some page is full exactly when its endpoint has a page of rows in the window.
  lemma FullIffWindowFills(cfg: Config, chain: Chain, from: nat, to: int, f: Fetch)
    requires from <= to && Honest(cfg, chain, from, to, f)
    ensures (exists p :: p in PagesOf(f) && IsFull(p)) <==> WindowFillsPage(cfg, chain, from, to)
  {
    assert PagesOf(f)[0] in PagesOf(f);
    match f
    case NativeFetch(native, internals, _) =>
      PageFullIffWindow(chain.native, NativeBlock(), from, to, native);
      if internals.Some? {
        FullInternalPage(chain, from, to, internals.value);
        assert PagesOf(f)[1] in PagesOf(f);
      }
    case Erc20Fetch(rows, _) =>
      PageFullIffWindow(chain.erc20, Erc20Block(), from, to, rows);
  }

  // What a cursor over honest pages can be: stuck where the next block fills a page, the safe head
  // where the window fills none, and below it otherwise.
  predicate ResolvedFacts(cursor: nat, safe: int, blocked: bool, fills: bool, r: Resolved) {
    && (r.full && r.newCursor <= cursor <==> blocked)
    && r.full == fills
    && (if r.full then r.newCursor < safe else r.newCursor == safe)
  }

  lemma ResolveFacts(cfg: Config, chain: Chain, cursor: nat, safe: int, f: Fetch)
    requires cursor < safe && Honest(cfg, chain, cursor + 1, safe, f)
    ensures ResolvedFacts(cursor, safe, BlockFillsPage(cfg, chain, cursor + 1),
                          WindowFillsPage(cfg, chain, cursor + 1, safe),
                          ResolveCursor(PagesOf(f), safe))
  {
    CursorInWindow(cfg, chain, cursor, safe, f);
    StallIsStuckPage(cursor, safe, PagesOf(f));
    StuckPageIsFullBlock(cfg, chain, cursor, safe, f);
    FullIffWindowFills(cfg, chain, cursor + 1, safe, f);
    MinCandidateIsLeast(PagesOf(f), safe);
    if p :| p in PagesOf(f) && IsFull(p) { FullPageBelowSafe(cfg, chain, cursor, safe, f, p); }
  }

  lemma LastWithin<R(!new)>(rowsAt: nat -> seq<R>, tag: PageLabel, blockOf: R -> nat, from: nat, safe: int,
                            items: seq<R>)
    requires IsPage(rowsAt, blockOf, from, safe, items) && IsFull(PageOf(tag, blockOf, items))
    ensures PageCandidate(PageOf(tag, blockOf, items), safe) < safe
  {
    assert blockOf(items[|items| - 1]) <= safe;
  }

  lemma FullPageBelowSafe(cfg: Config, chain: Chain, cursor: nat, safe: int, f: Fetch, p: FetchedPage)
    requires cursor < safe && Honest(cfg, chain, cursor + 1, safe, f) && p in PagesOf(f) && IsFull(p)
    ensures PageCandidate(p, safe) < safe
  {
    match f
    case NativeFetch(native, internals, _) =>
      if p == PageOf(NativePage, NativeBlock(), native) {
        LastWithin(chain.native, NativePage, NativeBlock(), cursor + 1, safe, native);
      } else {
        var q :| q in chain.providers && ServedBy(chain, q, cursor + 1, safe, internals.value);
        LastWithin(ServedTraces(chain, q), InternalPage, InternalBlock(), cursor + 1, safe, internals.value);
      }
    case Erc20Fetch(rows, _) =>
      LastWithin(chain.erc20, Erc20Page, Erc20Block(), cursor + 1, safe, rows);
  }

  // What an outcome over an honest fetch can be: a stall where the next block fills a page, and else
  // an advance that is backfilling below the safe head where the window fills one, live there where not.
  predicate OutcomeFacts(cursor: nat, safe: int, blocked: bool, fills: bool, o: Outcome) {
    match o
    case Skip => NothingToFetch(cursor, safe)
    case Fail(error) => !NothingToFetch(cursor, safe) && blocked && error.Stalled?
    case Commit(_, newCursor, status) =>
      && !NothingToFetch(cursor, safe) && !blocked && cursor < newCursor
      && (if fills then status == Backfilling && newCursor < safe else status == Live && newCursor == safe)
  }

  lemma DecideFacts(cfg: Config, cursor: nat, safe: int, f: Fetch, blocked: bool, fills: bool)
    requires cursor < safe && EventsOf(cfg, f).Ok?
             && ResolvedFacts(cursor, safe, blocked, fills, ResolveCursor(PagesOf(f), safe))
    ensures OutcomeFacts(cursor, safe, blocked, fills, Decide(cfg, cursor, safe, f))
  {
  }

  // A run over a fetch it can process stalls exactly when the next block alone fills a page, and
  // otherwise ends backfilling exactly when the window does.
  lemma StallsIffBlockFillsPage(cfg: Config, chain: Chain, cursor: nat, safe: int, f: Fetch, o: Outcome)
    requires cursor < safe && Honest(cfg, chain, cursor + 1, safe, f) && EventsOf(cfg, f).Ok?
             && o == Decide(cfg, cursor, safe, f)
    ensures o.Fail? <==> BlockFillsPage(cfg, chain, cursor + 1)
    ensures OutcomeFacts(cursor, safe, BlockFillsPage(cfg, chain, cursor + 1),
                         WindowFillsPage(cfg, chain, cursor + 1, safe), o)
  {
    ResolveFacts(cfg, chain, cursor, safe, f);
    DecideFacts(cfg, cursor, safe, f, BlockFillsPage(cfg, chain, cursor + 1),
                WindowFillsPage(cfg, chain, cursor + 1, safe));
  }

  // ------------------------------------------------------------------ one job

  datatype JobError = PageFailed(error: IngestError) | NoAdvance

  datatype JobResult = Done(result: IngestResult) | Requeued(result: IngestResult) | Threw(error: JobError)

  // What a job does with the outcome of its run.
  ghost predicate JobOutcome(cp: Checkpoint, before: map<Key, Event>, o: Outcome, cp': Checkpoint,
                             after: map<Key, Event>, r: JobResult) {
    match o
    case Skip => cp' == cp && after == before && (if cp.status == Backfilling then r == Threw(NoAdvance) else r.Done?)
    case Fail(error) => cp' == cp && after == before && r == Threw(PageFailed(error))
    case Commit(events, newCursor, status) =>
      && cp' == AdvanceCheckpoint(cp, newCursor, status) && after == InsertAll(before, events)
      && (if status != Backfilling then r.Done? && r.result.lastProcessedBlock == newCursor
          else if newCursor > cp.cursor then r.Requeued? && r.result.lastProcessedBlock == newCursor
          else r == Threw(NoAdvance))
  }

  // backfill.ts:37-55.
  method RunBackfillJob(db: Database, cfg: Config, head: int, finalityDepth: nat, provider: (nat, int) -> Fetch)
    returns (r: JobResult, ghost o: Outcome)
    requires db.Valid()
    modifies db
    ensures db.Valid()
    ensures IsOutcome(cfg, old(db.checkpoint), head - finalityDepth, provider, o)
    ensures JobOutcome(old(db.checkpoint), old(db.store), o, db.checkpoint, db.store, r)
  {
    var before := db.checkpoint.cursor;
    var res;
    res, o := IngestOnce(db, cfg, head, finalityDepth, provider);
    if res.Err? { return Threw(PageFailed(res.error)), o; }
    if res.value.status != Backfilling { return Done(res.value), o; }
    if res.value.lastProcessedBlock <= before { return Threw(NoAdvance), o; }
    return Requeued(res.value), o;
  }

  // The provider answers every window honestly, with all the receipts the rows need.
  ghost predicate GoodProvider(cfg: Config, chain: Chain, provider: (nat, int) -> Fetch) {
    forall from: nat, to: int {:trigger GoodAnswer(cfg, chain, from, to, provider(from, to))} ::
      from <= to ==> GoodAnswer(cfg, chain, from, to, provider(from, to))
  }

  ghost predicate GoodAnswer(cfg: Config, chain: Chain, from: nat, to: int, f: Fetch) {
    Honest(cfg, chain, from, to, f) && EventsOf(cfg, f).Ok?
  }

  // The window this run asks for, if it asks for one, is answered honestly and can be processed.
  ghost predicate Answered(cfg: Config, chain: Chain, cp: Checkpoint, safe: int, provider: (nat, int) -> Fetch) {
    NothingToFetch(cp.cursor, safe)
    || GoodAnswer(cfg, chain, cp.cursor + 1, safe, provider(cp.cursor + 1, safe))
  }

  lemma GoodProviderAnswers(cfg: Config, chain: Chain, cp: Checkpoint, safe: int, provider: (nat, int) -> Fetch)
    requires GoodProvider(cfg, chain, provider)
    ensures Answered(cfg, chain, cp, safe, provider)
  {
  }

  // The run of this stream stalls, or pushes it to backfilling: known from checkpoint, chain and safe
  // head before the run.
  predicate Stalls(cfg: Config, chain: Chain, cp: Checkpoint, safe: int) {
    !NothingToFetch(cp.cursor, safe) && BlockFillsPage(cfg, chain, cp.cursor + 1)
  }

  predicate Backfills(cfg: Config, chain: Chain, cp: Checkpoint, safe: int) {
    && !NothingToFetch(cp.cursor, safe) && !BlockFillsPage(cfg, chain, cp.cursor + 1)
    && WindowFillsPage(cfg, chain, cp.cursor + 1, safe)
  }

  lemma RunFacts(cfg: Config, chain: Chain, cp: Checkpoint, safe: int, provider: (nat, int) -> Fetch, o: Outcome)
    requires Answered(cfg, chain, cp, safe, provider) && IsOutcome(cfg, cp, safe, provider, o)
    ensures OutcomeFacts(cp.cursor, safe, BlockFillsPage(cfg, chain, cp.cursor + 1),
                         WindowFillsPage(cfg, chain, cp.cursor + 1, safe), o)
  {
    if NothingToFetch(cp.cursor, safe) {
      SkipFacts(cp.cursor, safe, BlockFillsPage(cfg, chain, cp.cursor + 1),
                WindowFillsPage(cfg, chain, cp.cursor + 1, safe));
    } else {
      StallsIffBlockFillsPage(cfg, chain, cp.cursor, safe, provider(cp.cursor + 1, safe), o);
    }
  }

  lemma SkipFacts(cursor: nat, safe: int, blocked: bool, fills: bool)
    requires NothingToFetch(cursor, safe)
    ensures OutcomeFacts(cursor, safe, blocked, fills, Skip)
  {
  }

  // The outcome of a run, told before it.
  lemma OutcomeForetold(cfg: Config, chain: Chain, cp: Checkpoint, safe: int, provider: (nat, int) -> Fetch, o: Outcome)
    requires Answered(cfg, chain, cp, safe, provider) && IsOutcome(cfg, cp, safe, provider, o)
    ensures o.Fail? <==> Stalls(cfg, chain, cp, safe)
    ensures o.Commit? && o.status == Backfilling <==> Backfills(cfg, chain, cp, safe)
    ensures o.Commit? ==> o.status == Backfilling || o.status == Live
  {
    RunFacts(cfg, chain, cp, safe, provider, o);
  }

  // A job re-enqueues exactly when its window fills a page and the next block alone does not. The
  // page then reports an advance, as backfill.ts:13-18 has it; but the stored cursor rises with it
  // exactly when nobody has paused the target, and on a paused one the checkpoint stays as it was, so
  // that the next job does the same again.
  lemma RequeueAdvances(cfg: Config, chain: Chain, cp: Checkpoint, before: map<Key, Event>, safe: int,
                        provider: (nat, int) -> Fetch,
                        o: Outcome, cp': Checkpoint, after: map<Key, Event>, r: JobResult)
    requires Answered(cfg, chain, cp, safe, provider) && IsOutcome(cfg, cp, safe, provider, o)
    requires JobOutcome(cp, before, o, cp', after, r)
    ensures r.Requeued? <==> Backfills(cfg, chain, cp, safe)
    ensures r.Requeued? ==> r.result.lastProcessedBlock > cp.cursor
    ensures r.Requeued? && cp'.cursor == cp.cursor <==> cp.status == Paused && Backfills(cfg, chain, cp, safe)
    ensures cp.status == Paused ==> cp' == cp
    ensures r == Threw(NoAdvance) <==> NothingToFetch(cp.cursor, safe) && cp.status == Backfilling
    ensures r.Threw? && r.error.PageFailed? <==> Stalls(cfg, chain, cp, safe)
  {
    RunFacts(cfg, chain, cp, safe, provider, o);
    RequeueByFacts(cfg, chain, cp, before, safe, o, cp', after, r);
  }

  lemma RequeueByFacts(cfg: Config, chain: Chain, cp: Checkpoint, before: map<Key, Event>, safe: int, o: Outcome,
                       cp': Checkpoint, after: map<Key, Event>, r: JobResult)
    requires JobOutcome(cp, before, o, cp', after, r)
    requires OutcomeFacts(cp.cursor, safe, BlockFillsPage(cfg, chain, cp.cursor + 1),
                          WindowFillsPage(cfg, chain, cp.cursor + 1, safe), o)
    ensures r.Requeued? <==> Backfills(cfg, chain, cp, safe)
    ensures r.Requeued? ==> r.result.lastProcessedBlock > cp.cursor
    ensures r.Requeued? && cp'.cursor == cp.cursor <==> cp.status == Paused && Backfills(cfg, chain, cp, safe)
    ensures cp.status == Paused ==> cp' == cp
    ensures r == Threw(NoAdvance) <==> NothingToFetch(cp.cursor, safe) && cp.status == Backfilling
    ensures r.Threw? && r.error.PageFailed? <==> Stalls(cfg, chain, cp, safe)
  {
    JobByFacts(cp, before, safe, BlockFillsPage(cfg, chain, cp.cursor + 1),
               WindowFillsPage(cfg, chain, cp.cursor + 1, safe), o, cp', after, r);
  }

  lemma JobByFacts(cp: Checkpoint, before: map<Key, Event>, safe: int, blocked: bool, fills: bool, o: Outcome,
                   cp': Checkpoint, after: map<Key, Event>, r: JobResult)
    requires OutcomeFacts(cp.cursor, safe, blocked, fills, o) && JobOutcome(cp, before, o, cp', after, r)
    ensures r.Requeued? <==> !NothingToFetch(cp.cursor, safe) && !blocked && fills
    ensures r.Requeued? ==> r.result.lastProcessedBlock > cp.cursor && (cp'.cursor > cp.cursor <==> cp.status != Paused)
    ensures cp.cursor <= cp'.cursor && (cp.status == Paused ==> cp' == cp)
    ensures r == Threw(NoAdvance) <==> NothingToFetch(cp.cursor, safe) && cp.status == Backfilling
    ensures r.Threw? && r.error.PageFailed? <==> !NothingToFetch(cp.cursor, safe) && blocked
  {
  }

  // ------------------------------------------------------------------ the chain of jobs

  // One link of the chain while nothing pauses the target and the next block fills no page: the
  // stored cursor rises, and the chain ends only live at the safe head.
  lemma LinkProgress(cfg: Config, chain: Chain, cp: Checkpoint, before: map<Key, Event>, safe: int,
                     provider: (nat, int) -> Fetch, o: Outcome, cp': Checkpoint, after: map<Key, Event>, r: JobResult)
    requires GoodProvider(cfg, chain, provider) && IsOutcome(cfg, cp, safe, provider, o)
             && JobOutcome(cp, before, o, cp', after, r)
    requires cp.status != Paused && cp.cursor < safe && !BlockFillsPage(cfg, chain, cp.cursor + 1)
    ensures cp.cursor < cp'.cursor
    ensures r.Requeued? ==> cp'.status == Backfilling && cp'.cursor < safe
    ensures !r.Requeued? ==> r.Done? && cp'.status == Live && cp'.cursor == safe
  {
    GoodProviderAnswers(cfg, chain, cp, safe, provider);
    RunFacts(cfg, chain, cp, safe, provider, o);
    LinkByFacts(cp, before, safe, WindowFillsPage(cfg, chain, cp.cursor + 1, safe), o, cp', after, r);
  }

  lemma LinkByFacts(cp: Checkpoint, before: map<Key, Event>, safe: int, fills: bool, o: Outcome,
                    cp': Checkpoint, after: map<Key, Event>, r: JobResult)
    requires cp.status != Paused && cp.cursor < safe
    requires OutcomeFacts(cp.cursor, safe, false, fills, o) && JobOutcome(cp, before, o, cp', after, r)
    ensures cp.cursor < cp'.cursor
    ensures r.Requeued? ==> cp'.status == Backfilling && cp'.cursor < safe
    ensures !r.Requeued? ==> r.Done? && cp'.status == Live && cp'.cursor == safe
  {
  }

  ghost predicate RisingHeads(head: nat -> int) {
    forall i: nat :: head(i) <= head(i + 1)
  }

  ghost predicate GoodProviders(cfg: Config, chain: Chain, provider: nat -> ((nat, int) -> Fetch)) {
    forall i: nat :: GoodProvider(cfg, chain, provider(i))
  }

  ghost predicate NoFullBlock(cfg: Config, chain: Chain, top: int) {
    forall b: nat :: b <= top ==> !BlockFillsPage(cfg, chain, b)
  }

  // How a chain of jobs ends when its last job sees this safe head: live there; or thrown, because the
  // head went back behind a stream that is backfilling; or at its first job, with nothing to fetch.
  predicate ChainEnds(first: Checkpoint, last: Checkpoint, jobs: nat, safe: int, r: JobResult) {
    || (r.Done? && last.status == Live && last.cursor == safe && jobs <= last.cursor - first.cursor)
    || (r == Threw(NoAdvance) && last.status == Backfilling && safe <= last.cursor)
    || (r.Done? && jobs == 1 && last == first && last.status != Backfilling && safe <= last.cursor)
  }

  // The queue serving one stream's chain. While blocks up to `top` stay below a page of rows and heads
  // stay below `top`, it ends, after one job more than blocks passed at most, whatever the heads do on
  // the way. Where they only rise, from above the cursor on, it ends live.
  method DrainChain(db: Database, cfg: Config, ghost chain: Chain, head: nat -> int, finalityDepth: nat, ghost top: int,
                    provider: nat -> ((nat, int) -> Fetch)) returns (jobs: nat, r: JobResult)
    requires db.Valid() && db.checkpoint.status != Paused
    requires (forall i: nat :: head(i) <= top) && NoFullBlock(cfg, chain, top) && GoodProviders(cfg, chain, provider)
    modifies db
    ensures db.Valid() && 1 <= jobs <= db.checkpoint.cursor - old(db.checkpoint.cursor) + 1
    ensures ChainEnds(old(db.checkpoint), db.checkpoint, jobs, head(jobs - 1) - finalityDepth, r)
    ensures RisingHeads(head) && old(db.checkpoint.cursor) < head(0) - finalityDepth ==>
      r.Done? && db.checkpoint.status == Live && db.checkpoint.cursor == head(jobs - 1) - finalityDepth
  {
    assert head(0) <= top;
    r := RunLink(db, cfg, chain, head(0), finalityDepth, provider(0));
    jobs := 1;
    while r.Requeued?
      invariant db.Valid() && db.checkpoint.status != Paused && jobs >= 1
      invariant jobs <= db.checkpoint.cursor - old(db.checkpoint.cursor) + if r.Requeued? then 0 else 1
      invariant r.Requeued? ==>
        db.checkpoint.status == Backfilling && db.checkpoint.cursor < head(jobs - 1) - finalityDepth
      invariant !r.Requeued? ==>
        ChainEnds(old(db.checkpoint), db.checkpoint, jobs, head(jobs - 1) - finalityDepth, r)
      invariant !r.Requeued? && RisingHeads(head) && old(db.checkpoint.cursor) < head(0) - finalityDepth ==>
        r.Done? && db.checkpoint.status == Live && db.checkpoint.cursor == head(jobs - 1) - finalityDepth
      decreases r.Requeued?, top - db.checkpoint.cursor
    {
      assert head(jobs) <= top;
      assert RisingHeads(head) ==> head(jobs - 1) <= head(jobs - 1 + 1);
      r := RunLink(db, cfg, chain, head(jobs), finalityDepth, provider(jobs));
      jobs := jobs + 1;
    }
  }

  // One job of the chain: an advance, or nothing to fetch.
  method RunLink(db: Database, cfg: Config, ghost chain: Chain, head: int, finalityDepth: nat,
                 provider: (nat, int) -> Fetch) returns (r: JobResult)
    requires db.Valid() && db.checkpoint.status != Paused && GoodProvider(cfg, chain, provider)
    requires db.checkpoint.cursor < head - finalityDepth ==> !BlockFillsPage(cfg, chain, db.checkpoint.cursor + 1)
    modifies db
    ensures db.Valid()
    ensures LinkResult(old(db.checkpoint), db.checkpoint, head - finalityDepth, r)
  {
    ghost var cp, before, safe := db.checkpoint, db.store, head - finalityDepth;
    ghost var o;
    r, o := RunBackfillJob(db, cfg, head, finalityDepth, provider);
    if cp.cursor < safe {
      LinkProgress(cfg, chain, cp, before, safe, provider, o, db.checkpoint, db.store, r);
    }
  }

  predicate LinkResult(cp: Checkpoint, cp': Checkpoint, safe: int, r: JobResult) {
    if cp.cursor >= safe then cp' == cp && (if cp.status == Backfilling then r == Threw(NoAdvance) else r.Done?)
    else
      && cp.cursor < cp'.cursor
      && (if r.Requeued? then cp'.status == Backfilling && cp'.cursor < safe
          else r.Done? && cp'.status == Live && cp'.cursor == safe)
  }

  // ------------------------------------------------------------------ the tail tick

  // The checkpoints of a chain's streams during a tick, the streams to hand to the backfill queue,
  // and the error that ended the tick early.
  datatype TickState = TickState(cps: seq<Checkpoint>, pushed: seq<nat>, error: Option<IngestError>)

  // The first n streams, where `outs[i]` is the outcome of a run over stream i.
  function Tick(cps: seq<Checkpoint>, outs: seq<Outcome>, n: nat): (t: TickState)
    requires n <= |cps| == |outs|
    ensures |t.cps| == |cps|
  {
    if n == 0 then TickState(cps, [], None)
    else
      var t := Tick(cps, outs, n - 1);
      if t.error.Some? || cps[n - 1].status != Live then t
      else match outs[n - 1]
        case Skip => t
        case Fail(error) => t.(error := Some(error))
        case Commit(_, newCursor, status) =>
          TickState(t.cps[n - 1 := AdvanceCheckpoint(cps[n - 1], newCursor, status)],
                    if status == Backfilling then t.pushed + [n - 1] else t.pushed, None)
  }

  predicate LiveOrBackfilling(outs: seq<Outcome>) {
    forall i :: 0 <= i < |outs| && outs[i].Commit? ==> outs[i].status == Live || outs[i].status == Backfilling
  }

  // A stream of the tick that has left `live` is one of those pushed, and the other way round.
  lemma {:induction false} TickPushes(cps: seq<Checkpoint>, outs: seq<Outcome>, n: nat, i: nat)
    requires n <= |cps| == |outs| && i < |cps| && LiveOrBackfilling(outs)
    ensures i in Tick(cps, outs, n).pushed <==> cps[i].status == Live && Tick(cps, outs, n).cps[i].status != Live
    ensures i >= n ==> Tick(cps, outs, n).cps[i] == cps[i]
    ensures cps[i].status != Live ==> Tick(cps, outs, n).cps[i] == cps[i]
  {
    if n > 0 {
      TickPushes(cps, outs, n - 1, i);
      TickPushes(cps, outs, n - 1, n - 1);
    }
  }

  // The streams that leave `live` in a tick without being handed over: a tick that fails hands over
  // none.
  ghost predicate Strands(cps: seq<Checkpoint>, outs: seq<Outcome>)
    requires |cps| == |outs|
  {
    var t := Tick(cps, outs, |cps|);
    var handed := if t.error.None? then t.pushed else [];
    exists i :: 0 <= i < |cps| && cps[i].status == Live && t.cps[i].status != Live && i !in handed
  }

  // In terms of the outcomes of the runs.
  lemma StrandsByOutcome(cps: seq<Checkpoint>, outs: seq<Outcome>)
    requires |cps| == |outs| && LiveOrBackfilling(outs)
    ensures Strands(cps, outs) <==>
      (exists k :: 0 <= k < |cps| && cps[k].status == Live && outs[k].Fail?)
      && exists i :: 0 <= i < |cps| && Reached(cps, outs, i)
                     && cps[i].status == Live && outs[i].Commit? && outs[i].status == Backfilling
  {
    var t := Tick(cps, outs, |cps|);
    ErrorWhenFailed(cps, outs, |cps|);
    forall i | 0 <= i < |cps|
      ensures i in t.pushed <==> cps[i].status == Live && t.cps[i].status != Live
      ensures i in t.pushed
              <==> Reached(cps, outs, i) && cps[i].status == Live && outs[i].Commit? && outs[i].status == Backfilling
    {
      TickPushes(cps, outs, |cps|, i);
      PushedWhenReached(cps, outs, |cps|, i);
    }
  }

  // No live stream up to i fails.
  predicate Reached(cps: seq<Checkpoint>, outs: seq<Outcome>, i: nat)
    requires i < |cps| == |outs|
  {
    forall k :: 0 <= k <= i && cps[k].status == Live ==> !outs[k].Fail?
  }

  lemma {:induction false} PushedWhenReached(cps: seq<Checkpoint>, outs: seq<Outcome>, n: nat, i: nat)
    requires n <= |cps| == |outs| && i < n
    ensures i in Tick(cps, outs, n).pushed
            <==> Reached(cps, outs, i) && cps[i].status == Live && outs[i].Commit? && outs[i].status == Backfilling
  {
    ErrorWhenFailed(cps, outs, n - 1);
    if i < n - 1 { PushedWhenReached(cps, outs, n - 1, i); } else { PushedBelow(cps, outs, n - 1); }
  }

  lemma {:induction false} ErrorWhenFailed(cps: seq<Checkpoint>, outs: seq<Outcome>, n: nat)
    requires n <= |cps| == |outs|
    ensures Tick(cps, outs, n).error.Some? <==> exists k :: 0 <= k < n && cps[k].status == Live && outs[k].Fail?
  {
    if n > 0 { ErrorWhenFailed(cps, outs, n - 1); }
  }

  lemma {:induction false} PushedBelow(cps: seq<Checkpoint>, outs: seq<Outcome>, n: nat)
    requires n <= |cps| == |outs|
    ensures forall i :: i in Tick(cps, outs, n).pushed ==> i < n
  {
    if n > 0 { PushedBelow(cps, outs, n - 1); }
  }

  // `outs[i]` is what a run over stream i's checkpoint comes to.
  ghost predicate Ran(cps: seq<Checkpoint>, cfgs: seq<Config>, safe: int, provider: nat -> ((nat, int) -> Fetch),
                      outs: seq<Outcome>, i: nat)
    requires i < |cps| == |cfgs| == |outs|
  {
    IsOutcome(cfgs[i], cps[i], safe, provider(i), outs[i])
  }

  ghost predicate AllRan(cps: seq<Checkpoint>, cfgs: seq<Config>, safe: int, provider: nat -> ((nat, int) -> Fetch),
                         outs: seq<Outcome>) {
    |cps| == |cfgs| == |outs| && forall i :: 0 <= i < |cps| ==> Ran(cps, cfgs, safe, provider, outs, i)
  }

  ghost predicate AllAnswered(cps: seq<Checkpoint>, cfgs: seq<Config>, chains: seq<Chain>, safe: int,
                              provider: nat -> ((nat, int) -> Fetch)) {
    |cps| == |cfgs| == |chains| && forall i :: 0 <= i < |cps| ==> StreamAnswered(cps, cfgs, chains, safe, provider, i)
  }

  ghost predicate StreamAnswered(cps: seq<Checkpoint>, cfgs: seq<Config>, chains: seq<Chain>, safe: int,
                                 provider: nat -> ((nat, int) -> Fetch), i: nat)
    requires i < |cps| == |cfgs| == |chains|
  {
    Answered(cfgs[i], chains[i], cps[i], safe, provider(i))
  }

  predicate StreamStalls(cps: seq<Checkpoint>, cfgs: seq<Config>, chains: seq<Chain>, safe: int, i: nat)
    requires i < |cps| == |cfgs| == |chains|
  {
    cps[i].status == Live && Stalls(cfgs[i], chains[i], cps[i], safe)
  }

  predicate StreamBackfills(cps: seq<Checkpoint>, cfgs: seq<Config>, chains: seq<Chain>, safe: int, i: nat)
    requires i < |cps| == |cfgs| == |chains|
  {
    cps[i].status == Live && Backfills(cfgs[i], chains[i], cps[i], safe)
  }

  predicate NoneStallsUpTo(cps: seq<Checkpoint>, cfgs: seq<Config>, chains: seq<Chain>, safe: int, i: nat)
    requires i < |cps| == |cfgs| == |chains|
  {
    forall j :: 0 <= j <= i ==> !StreamStalls(cps, cfgs, chains, safe, j)
  }

  // Stream i goes to backfilling in a tick that stream k then fails.
  predicate Overtaken(cps: seq<Checkpoint>, cfgs: seq<Config>, chains: seq<Chain>, safe: int, i: nat, k: nat)
    requires i < k < |cps| == |cfgs| == |chains|
  {
    StreamBackfills(cps, cfgs, chains, safe, i) && NoneStallsUpTo(cps, cfgs, chains, safe, i)
      && StreamStalls(cps, cfgs, chains, safe, k)
  }

  lemma StreamForetold(cps: seq<Checkpoint>, cfgs: seq<Config>, chains: seq<Chain>, safe: int,
                       provider: nat -> ((nat, int) -> Fetch), outs: seq<Outcome>, i: nat)
    requires AllRan(cps, cfgs, safe, provider, outs) && AllAnswered(cps, cfgs, chains, safe, provider) && i < |cps|
    ensures cps[i].status == Live && outs[i].Fail? <==> StreamStalls(cps, cfgs, chains, safe, i)
    ensures cps[i].status == Live && outs[i].Commit? && outs[i].status == Backfilling
            <==> StreamBackfills(cps, cfgs, chains, safe, i)
    ensures outs[i].Commit? ==> outs[i].status == Backfilling || outs[i].status == Live
  {
    assert Ran(cps, cfgs, safe, provider, outs, i) && StreamAnswered(cps, cfgs, chains, safe, provider, i);
    OutcomeForetold(cfgs[i], chains[i], cps[i], safe, provider(i), outs[i]);
  }

  // A tick leaves a stream out of `live` and without a job exactly when a live stream has a page of
  // rows in its window but not in its next block, no live stream up to it is stuck at a block that
  // fills a page, and a later one is: known from checkpoints, chains and safe head before the tick.
  lemma TickStrands(cps: seq<Checkpoint>, cfgs: seq<Config>, chains: seq<Chain>, safe: int,
                    provider: nat -> ((nat, int) -> Fetch), outs: seq<Outcome>)
    requires AllRan(cps, cfgs, safe, provider, outs) && AllAnswered(cps, cfgs, chains, safe, provider)
    ensures Strands(cps, outs) <==>
      exists i, k :: 0 <= i < k < |cps| && Overtaken(cps, cfgs, chains, safe, i, k)
  {
    forall i | 0 <= i < |cps|
      ensures cps[i].status == Live && outs[i].Fail? <==> StreamStalls(cps, cfgs, chains, safe, i)
      ensures cps[i].status == Live && outs[i].Commit? && outs[i].status == Backfilling
              <==> StreamBackfills(cps, cfgs, chains, safe, i)
      ensures outs[i].Commit? ==> outs[i].status == Backfilling || outs[i].status == Live
    {
      StreamForetold(cps, cfgs, chains, safe, provider, outs, i);
    }
    forall i | 0 <= i < |cps| ensures Reached(cps, outs, i) <==> NoneStallsUpTo(cps, cfgs, chains, safe, i) {}
    StrandsByOutcome(cps, outs);
    if Strands(cps, outs) {
      var k :| 0 <= k < |cps| && cps[k].status == Live && outs[k].Fail?;
      var i :| 0 <= i < |cps| && Reached(cps, outs, i) && cps[i].status == Live && outs[i].Commit?
        && outs[i].status == Backfilling;
      assert i < k && Overtaken(cps, cfgs, chains, safe, i, k);
    }
  }

  // A live stream's checkpoint after its run, and whether the run pushes it to the backfill queue.
  function StreamAfter(cp: Checkpoint, o: Outcome): Checkpoint {
    if o.Commit? then AdvanceCheckpoint(cp, o.newCursor, o.status) else cp
  }

  predicate Pushes(o: Outcome) { o.Commit? && o.status == Backfilling }

  // One live stream of a tick.
  method TickStream(db: Database, cfg: Config, head: int, finalityDepth: nat, provider: (nat, int) -> Fetch,
                    ghost o: Outcome)
    returns (res: Result<IngestResult, IngestError>)
    requires db.Valid() && db.checkpoint.status == Live
    requires IsOutcome(cfg, db.checkpoint, head - finalityDepth, provider, o)
    modifies db
    ensures db.Valid() && db.checkpoint == StreamAfter(old(db.checkpoint), o)
    ensures res.Err? <==> o.Fail?
    ensures res.Err? ==> res.error == o.error
    ensures res.Ok? ==> (res.value.status == Backfilling <==> Pushes(o))
  {
    ghost var cp := db.checkpoint;
    ghost var o';
    res, o' := IngestOnce(db, cfg, head, finalityDepth, provider);
    OutcomeUnique(cfg, cp, head - finalityDepth, provider, o, o');
  }

  ghost predicate Holds(dbs: seq<Database>, cps: seq<Checkpoint>)
    reads dbs
  {
    |dbs| == |cps| && forall i :: 0 <= i < |dbs| ==> dbs[i].checkpoint == cps[i]
  }

  // The same among the chain's streams: the others keep their checkpoints.
  method TickStreamAt(dbs: seq<Database>, i: nat, cfg: Config, head: int, finalityDepth: nat,
                      provider: (nat, int) -> Fetch,
                      ghost cps: seq<Checkpoint>, ghost o: Outcome) returns (res: Result<IngestResult, IngestError>)
    requires Distinct(dbs) && AllValid(dbs) && Holds(dbs, cps) && i < |dbs| && cps[i].status == Live
    requires IsOutcome(cfg, cps[i], head - finalityDepth, provider, o)
    modifies dbs[i]
    ensures AllValid(dbs) && Holds(dbs, cps[i := StreamAfter(cps[i], o)])
    ensures res.Err? <==> o.Fail?
    ensures res.Err? ==> res.error == o.error
    ensures res.Ok? ==> (res.value.status == Backfilling <==> Pushes(o))
  {
    assert dbs[i].Valid() && dbs[i].checkpoint == cps[i];
    res := TickStream(dbs[i], cfg, head, finalityDepth, provider, o);
  }

  predicate Distinct(dbs: seq<Database>) { forall i, j :: 0 <= i < j < |dbs| ==> dbs[i] != dbs[j] }

  ghost predicate AllValid(dbs: seq<Database>)
    reads dbs
  {
    forall i :: 0 <= i < |dbs| ==> dbs[i].Valid()
  }

  lemma TickNext(cps: seq<Checkpoint>, outs: seq<Outcome>, i: nat)
    requires i < |cps| == |outs| && Tick(cps, outs, i).error.None?
    ensures Tick(cps, outs, i).cps[i] == cps[i]
    ensures var t, t' := Tick(cps, outs, i), Tick(cps, outs, i + 1);
      if cps[i].status != Live then t' == t
      else
        && t'.cps == t.cps[i := StreamAfter(cps[i], outs[i])]
        && t'.pushed == (if Pushes(outs[i]) then t.pushed + [i] else t.pushed)
        && t'.error == (if outs[i].Fail? then Some(outs[i].error) else None)
        && (outs[i].Fail? ==> Tick(cps, outs, |cps|) == t')
  {
    TickAbove(cps, outs, i, i);
    assert Tick(cps, outs, i).cps[i := cps[i]] == Tick(cps, outs, i).cps;
    if cps[i].status == Live && outs[i].Fail? { TickStops(cps, outs, i + 1); }
  }

  lemma {:induction false} TickAbove(cps: seq<Checkpoint>, outs: seq<Outcome>, n: nat, i: nat)
    requires n <= i < |cps| == |outs|
    ensures Tick(cps, outs, n).cps[i] == cps[i]
  {
    if n > 0 { TickAbove(cps, outs, n - 1, i); }
  }

  // tail.ts:24-37. `dbs[i]` holds the rows and checkpoint of stream i.
  method RunTailTick(dbs: seq<Database>, cfgs: seq<Config>, head: int, finalityDepth: nat,
                     provider: nat -> ((nat, int) -> Fetch),
                     ghost cps: seq<Checkpoint>, ghost outs: seq<Outcome>) returns (r: Result<seq<nat>, IngestError>)
    requires Distinct(dbs) && AllValid(dbs) && Holds(dbs, cps)
             && AllRan(cps, cfgs, head - finalityDepth, provider, outs)
    modifies dbs
    ensures AllValid(dbs)
    ensures var t := Tick(cps, outs, |cps|);
      Holds(dbs, t.cps) && r == if t.error.Some? then Err(t.error.value) else Ok(t.pushed)
  {
    var backfilling: seq<nat> := [];
    for i := 0 to |dbs|
      invariant AllValid(dbs) && Holds(dbs, Tick(cps, outs, i).cps)
      invariant Tick(cps, outs, i).error.None? && backfilling == Tick(cps, outs, i).pushed
    {
      TickNext(cps, outs, i);
      assert dbs[i].checkpoint == cps[i];
      if dbs[i].checkpoint.status == Live {
        assert Ran(cps, cfgs, head - finalityDepth, provider, outs, i);
        var res := TickStreamAt(dbs, i, cfgs[i], head, finalityDepth, provider(i), Tick(cps, outs, i).cps, outs[i]);
        if res.Err? { return Err(res.error); }
        if res.value.status == Backfilling { backfilling := backfilling + [i]; }
      }
    }
    return Ok(backfilling);
  }

  lemma {:induction false} TickStops(cps: seq<Checkpoint>, outs: seq<Outcome>, n: nat)
    requires n <= |cps| == |outs| && Tick(cps, outs, n).error.Some?
    ensures Tick(cps, outs, |cps|) == Tick(cps, outs, n)
    decreases |cps| - n
  {
    if n < |cps| { TickStops(cps, outs, n + 1); }
  }
}
