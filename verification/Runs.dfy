// Runs over a concrete chain: every fetch is an honest provider answer to the window its job asked
// for, and every commit is what the run decides from it.

module Runs {
  import opened Text
  import opened Types
  import opened LogIndex
  import opened ChainModel
  import opened Committable
  import opened CanonicalKeys
  import opened Ingest
  import opened Protocol

  ghost predicate Truth(cfg: Config, chain: Chain, e: Event) {
    FeesOnChain(cfg, chain) && Canonical(cfg, chain, e.block, e)
  }

  ghost predicate Matched(cfg: Config, chain: Chain, b: nat) {
    cfg.stream == Erc20Stream ==> Assigned(chain.erc20(b), chain.receipts).Ok?
  }

  ghost function SetupOf(cfg: Config, chain: Chain, anchor: Option<Anchor>): Setup {
    Setup(cfg.tracked, cfg.stream, (e: Event) => Truth(cfg, chain, e), (b: nat) => Matched(cfg, chain, b), anchor)
  }

  // The outcome of a run that read this cursor, for some head and some honest fetch.
  ghost predicate FetchedBy(cfg: Config, chain: Chain, cursor: nat, o: Outcome) {
    exists safe: int, f: Fetch ::
      !NothingToFetch(cursor, safe) && Honest(cfg, chain, cursor + 1, safe, f) && o == Decide(cfg, cursor, safe, f)
  }

  ghost predicate HonestStep(cfg: Config, chain: Chain, setup: Setup, s: State, step: Step) {
    && Possible(setup, s, step)
    && (step.FetchWindow? ==> FetchedBy(cfg, chain, s.jobs[step.id].before.cursor, step.outcome))
    && (step.AnchorFetch? ==> AnchorRows(setup, step.rows))
  }

  ghost predicate HonestRun(cfg: Config, chain: Chain, setup: Setup, s: State, steps: seq<Step>)
    decreases |steps|
  {
    steps == []
    || (HonestStep(cfg, chain, setup, s, steps[0])
        && HonestRun(cfg, chain, setup, Apply(setup, s, steps[0]), steps[1..]))
  }

  lemma SetupValid(cfg: Config, chain: Chain, anchor: Option<Anchor>)
    requires WellFormed(cfg, chain)
    ensures ValidSetup(SetupOf(cfg, chain, anchor))
  {
    forall e, f | Truth(cfg, chain, e) && Truth(cfg, chain, f) && e.key == f.key ensures e == f {
      CanonicalKeyUnique(cfg, chain, e.block, f.block, e, f);
    }
    forall e | Truth(cfg, chain, e) ensures e.key.logIndex != -3 {
      CanonicalOrigin(cfg, chain, e.block, e);
    }
  }

  lemma CommitTruth(cfg: Config, chain: Chain, cursor: nat, safe: int, f: Fetch, e: Event)
    requires WellFormed(cfg, chain) && cursor < safe && Honest(cfg, chain, cursor + 1, safe, f)
    requires Decide(cfg, cursor, safe, f).Commit?
    ensures e in Decide(cfg, cursor, safe, f).events <==>
            cursor < e.block <= Decide(cfg, cursor, safe, f).newCursor && Truth(cfg, chain, e)
  {
    CommitIsCanonical(cfg, chain, cursor, safe, f, e);
  }

  lemma FetchedIsCanonical(cfg: Config, chain: Chain, anchor: Option<Anchor>, cursor: nat, o: Outcome)
    requires WellFormed(cfg, chain) && FetchedBy(cfg, chain, cursor, o) && o.Commit?
    ensures CanonicalCommit(SetupOf(cfg, chain, anchor), cursor, o)
  {
    var safe: int, f: Fetch :|
      !NothingToFetch(cursor, safe) && Honest(cfg, chain, cursor + 1, safe, f) && o == Decide(cfg, cursor, safe, f);
    CommitAdvances(cfg, chain, cursor, safe, f);
    DecideCommits(cfg, cursor, safe, f);
    forall e ensures e in o.events <==> cursor < e.block <= o.newCursor && SetupOf(cfg, chain, anchor).canonical(e) {
      CommitTruth(cfg, chain, cursor, safe, f, e);
    }
    forall b: nat | cursor < b <= o.newCursor ensures Matched(cfg, chain, b) {
      CommitMatched(cfg, chain, cursor, safe, f, b);
    }
  }

  lemma CommitMatched(cfg: Config, chain: Chain, cursor: nat, safe: int, f: Fetch, b: nat)
    requires WellFormed(cfg, chain) && cursor < safe && Honest(cfg, chain, cursor + 1, safe, f)
    requires Decide(cfg, cursor, safe, f).Commit? && cursor < b <= Decide(cfg, cursor, safe, f).newCursor
    ensures Matched(cfg, chain, b)
  {
    DecideCommits(cfg, cursor, safe, f);
    CommitAdvances(cfg, chain, cursor, safe, f);
    CursorMatched(cfg, chain, cursor, safe, f, ResolveCursor(PagesOf(f), safe).newCursor, b);
  }

  lemma CursorMatched(cfg: Config, chain: Chain, cursor: nat, safe: int, f: Fetch, upto: int, b: nat)
    requires WellFormed(cfg, chain) && cursor < safe && Honest(cfg, chain, cursor + 1, safe, f) && EventsOf(cfg, f).Ok?
    requires upto == ResolveCursor(PagesOf(f), safe).newCursor && cursor < b <= upto <= safe
    ensures Matched(cfg, chain, b)
  {
    if f.Erc20Fetch? {
      CursorBelowCandidates(cfg, f, safe);
      PassedBlocksMatch(cfg, chain, cursor + 1, safe, f.rows, f.receipts, upto, b);
    }
  }

  lemma {:induction false} HonestRunIsRun(cfg: Config, chain: Chain, anchor: Option<Anchor>, s: State, steps: seq<Step>)
    requires WellFormed(cfg, chain) && HonestRun(cfg, chain, SetupOf(cfg, chain, anchor), s, steps)
    ensures IsRun(SetupOf(cfg, chain, anchor), s, steps)
    decreases |steps|
  {
    if steps != [] {
      var setup := SetupOf(cfg, chain, anchor);
      HonestStepEnabled(cfg, chain, anchor, s, steps[0]);
      HonestRunIsRun(cfg, chain, anchor, Apply(setup, s, steps[0]), steps[1..]);
    }
  }

  lemma HonestStepEnabled(cfg: Config, chain: Chain, anchor: Option<Anchor>, s: State, step: Step)
    requires WellFormed(cfg, chain) && HonestStep(cfg, chain, SetupOf(cfg, chain, anchor), s, step)
    ensures Enabled(SetupOf(cfg, chain, anchor), s, step)
  {
    if step.FetchWindow? && step.outcome.Commit? {
      FetchedIsCanonical(cfg, chain, anchor, s.jobs[step.id].before.cursor, step.outcome);
    }
  }

  // Over every interleaving of reads, fetches, commits, anchors, crashes, retries and pauses: in the
  // covered blocks at or below the cursor, the rows stored are exactly the chain's canonical events.
  lemma StoreMatchesChain(cfg: Config, chain: Chain, anchor: Option<Anchor>, s: State, steps: seq<Step>, e: Event)
    requires WellFormed(cfg, chain) && Initial(s) && HonestRun(cfg, chain, SetupOf(cfg, chain, anchor), s, steps)
    ensures IsRun(SetupOf(cfg, chain, anchor), s, steps)
    ensures var s' := After(SetupOf(cfg, chain, anchor), s, steps);
      Floor(SetupOf(cfg, chain, anchor)) < e.block <= s'.cp.cursor ==>
        (e.key in s'.store && s'.store[e.key] == e <==> Canonical(cfg, chain, e.block, e))
  {
    var setup := SetupOf(cfg, chain, anchor);
    SetupValid(cfg, chain, anchor);
    HonestRunIsRun(cfg, chain, anchor, s, steps);
    if Floor(setup) < e.block <= After(setup, s, steps).cp.cursor {
      StoreIsCanonical(setup, s, steps, e);
    }
  }

  // Every row anywhere in the store is the canonical event for its key, or the opening balance.
  lemma StoredRowsMatchChain(cfg: Config, chain: Chain, anchor: Option<Anchor>, s: State, steps: seq<Step>, k: Key)
    requires WellFormed(cfg, chain) && Initial(s) && HonestRun(cfg, chain, SetupOf(cfg, chain, anchor), s, steps)
    ensures IsRun(SetupOf(cfg, chain, anchor), s, steps)
    ensures var setup := SetupOf(cfg, chain, anchor);
      var store := After(setup, s, steps).store;
      k in store ==>
        store[k].key == k && (IsOpening(setup, store[k]) || Canonical(cfg, chain, store[k].block, store[k]))
  {
    var setup := SetupOf(cfg, chain, anchor);
    SetupValid(cfg, chain, anchor);
    HonestRunIsRun(cfg, chain, anchor, s, steps);
    if k in After(setup, s, steps).store { EveryRowCanonical(setup, s, steps, k); }
  }

  // No row below the cursor was skipped for want of a log: the stream stops before such a block.
  lemma ChainMatchedBelowCursor(cfg: Config, chain: Chain, anchor: Option<Anchor>, s: State, steps: seq<Step>, b: nat)
    requires WellFormed(cfg, chain) && Initial(s) && HonestRun(cfg, chain, SetupOf(cfg, chain, anchor), s, steps)
    ensures IsRun(SetupOf(cfg, chain, anchor), s, steps)
    ensures cfg.stream == Erc20Stream
            && Floor(SetupOf(cfg, chain, anchor)) < b <= After(SetupOf(cfg, chain, anchor), s, steps).cp.cursor
      ==> Assigned(chain.erc20(b), chain.receipts).Ok?
  {
    var setup := SetupOf(cfg, chain, anchor);
    SetupValid(cfg, chain, anchor);
    HonestRunIsRun(cfg, chain, anchor, s, steps);
    if Floor(setup) < b <= After(setup, s, steps).cp.cursor { PassedBlocksMatched(setup, s, steps, b); }
  }
}
