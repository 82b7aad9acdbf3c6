// Any number of jobs on one target: reads, fetches, commits, anchors, crashes, retries and operator
// changes of status interleave freely, heads and pages are adversarial.

module Protocol {
  import opened Text
  import opened Types
  import opened ChainModel
  import opened Store
  import opened Ingest

  // An anchored target: the block its date resolves to, the date's instant, and what providers
  // attest there (packages/ingestion/src/processors/anchor.ts:26-52).
  datatype Anchor = Anchor(block: nat, time: int, balance: Token -> int)

  // One target. `canonical` holds of the events of the chain for the tracked address, `matched` of the
  // blocks whose every row has its receipt log; module Runs says what they are on a concrete chain.
  datatype Setup = Setup(tracked: string, stream: Stream, canonical: Event -> bool, matched: nat -> bool,
                         anchor: Option<Anchor>)

  // ------------------------------------------------------------------ opening balances

  // packages/ingestion/src/write/anchor-writer.ts:22-24.
  function AnchorTxHash(address: string, block: nat): string {
    "anchor:" + Lower(address) + ":" + Digits(block)
  }

  // anchor-writer.ts:35-52.
  function OpeningRow(tracked: string, a: Anchor, token: Token): Event {
    Event(Key(AnchorTxHash(tracked, a.block), -3, token), OpeningBalance, ZERO_ADDRESS, Lower(tracked),
          a.balance(token), a.block, a.time, ZERO_ADDRESS, Some(Lower(tracked)))
  }

  // The native stream anchors the native token; the erc20 stream whichever curated tokens it knows
  // at that moment. Balances that are not positive give no row (anchor.ts:54-86).
  ghost predicate AnchorRows(setup: Setup, rows: seq<Event>) {
    && setup.anchor.Some?
    && (forall e :: e in rows ==> IsOpening(setup, e))
    && (setup.stream == NativeStream ==>
          rows ==
          if setup.anchor.value.balance(NativeToken) > 0
          then [OpeningRow(setup.tracked, setup.anchor.value, NativeToken)]
          else [])
  }

  ghost predicate IsOpening(setup: Setup, e: Event) {
    setup.anchor.Some? && e == OpeningRow(setup.tracked, setup.anchor.value, e.key.token) && e.amount > 0
  }

  // ------------------------------------------------------------------ states and steps

  // A commit that advances the cursor its job read and carries exactly the canonical events of the
  // blocks in between. Module Runs proves this of every honest fetch.
  ghost predicate CanonicalCommit(setup: Setup, cursor: nat, o: Outcome) {
    && o.Commit? && cursor < o.newCursor && o.status != Paused
    && (forall e :: e in o.events <==> cursor < e.block <= o.newCursor && setup.canonical(e))
    && (forall b: nat :: cursor < b <= o.newCursor ==> setup.matched(b))
  }

  // A job holds the checkpoint it read, then what its fetched window decides; an anchor job its rows.
  datatype Job =
    | Reading(before: Checkpoint)
    | Ready(before: Checkpoint, outcome: Outcome)
    | AnchorReady(rows: seq<Event>, block: nat)

  // `high` is the highest cursor there has ever been; no code reads it.
  datatype State = State(store: map<Key, Event>, cp: Checkpoint, jobs: map<nat, Job>, high: nat)

  datatype Step =
    | Read(id: nat)
    | SkipFetch(id: nat, safe: int)
    | FetchWindow(id: nat, outcome: Outcome)
    | CommitJob(id: nat)
    | Crash(id: nat)
    | Operator(status: Status)
    | AnchorFetch(id: nat, rows: seq<Event>)
    | AnchorCommit(id: nat)

  // The step makes sense in this state, whatever a fetch brought back.
  predicate Possible(setup: Setup, s: State, step: Step) {
    match step
    case Read(id) => id !in s.jobs
    case SkipFetch(id, safe) => id in s.jobs && s.jobs[id].Reading? && NothingToFetch(s.jobs[id].before.cursor, safe)
    case FetchWindow(id, o) => id in s.jobs && s.jobs[id].Reading?
    case CommitJob(id) => id in s.jobs && s.jobs[id].Ready?
    case Crash(id) => id in s.jobs
    case Operator(status) => true
    case AnchorFetch(id, rows) => id !in s.jobs && setup.anchor.Some?
    case AnchorCommit(id) => id in s.jobs && s.jobs[id].AnchorReady?
  }

  ghost predicate Enabled(setup: Setup, s: State, step: Step) {
    && Possible(setup, s, step)
    && (step.FetchWindow? && step.outcome.Commit?
        ==> CanonicalCommit(setup, s.jobs[step.id].before.cursor, step.outcome))
    && (step.AnchorFetch? ==> AnchorRows(setup, step.rows))
  }

  function Without(jobs: map<nat, Job>, id: nat): map<nat, Job> { jobs - {id} }

  function WithCheckpoint(s: State, store: map<Key, Event>, cp: Checkpoint, jobs: map<nat, Job>): State {
    State(store, cp, jobs, if cp.cursor > s.high then cp.cursor else s.high)
  }

  function Committed(s: State, id: nat, o: Outcome): State
    requires o.Commit?
  {
    WithCheckpoint(s, InsertAll(s.store, o.events), AdvanceCheckpoint(s.cp, o.newCursor, o.status), Without(s.jobs, id))
  }

  function Apply(setup: Setup, s: State, step: Step): State
    requires Possible(setup, s, step)
  {
    match step
    case Read(id) => s.(jobs := s.jobs[id := Reading(s.cp)])
    case SkipFetch(id, _) => s.(jobs := Without(s.jobs, id))
    case FetchWindow(id, o) => s.(jobs := s.jobs[id := Ready(s.jobs[id].before, o)])
    case CommitJob(id) =>
      if s.jobs[id].outcome.Commit? then Committed(s, id, s.jobs[id].outcome)
      else s.(jobs := Without(s.jobs, id))
    case Crash(id) => s.(jobs := Without(s.jobs, id))
    case Operator(status) => s.(cp := s.cp.(status := status))
    case AnchorFetch(id, rows) => s.(jobs := s.jobs[id := AnchorReady(rows, setup.anchor.value.block)])
    case AnchorCommit(id) =>
      WithCheckpoint(s, InsertAll(s.store, s.jobs[id].rows), AnchorCheckpoint(s.cp, s.jobs[id].block),
                     Without(s.jobs, id))
  }

  ghost predicate Initial(s: State) {
    s.store == map[] && s.cp.cursor == 0 && s.cp.anchorBlock.None? && s.jobs == map[] && s.high == 0
  }

  // A run: every step is enabled where it is taken.
  ghost predicate IsRun(setup: Setup, s: State, steps: seq<Step>)
    decreases |steps|
  {
    steps == [] || (Enabled(setup, s, steps[0]) && IsRun(setup, Apply(setup, s, steps[0]), steps[1..]))
  }

  ghost function After(setup: Setup, s: State, steps: seq<Step>): State
    requires IsRun(setup, s, steps)
    decreases |steps|
  {
    if steps == [] then s else After(setup, Apply(setup, s, steps[0]), steps[1..])
  }

  // ------------------------------------------------------------------ the invariant

  // A key names one canonical event, and the opening slot is nobody else's.
  ghost predicate ValidSetup(setup: Setup) {
    && (forall e, f :: setup.canonical(e) && setup.canonical(f) && e.key == f.key ==> e == f)
    && (forall e :: setup.canonical(e) ==> e.key.logIndex != -3)
  }

  // Coverage starts after this block.
  function Floor(setup: Setup): nat {
    if setup.anchor.Some? then setup.anchor.value.block else 0
  }

  // Every stored row is the canonical row for its key.
  ghost predicate Sound(setup: Setup, store: map<Key, Event>)
    requires ValidSetup(setup)
  {
    forall k :: k in store ==>
      store[k].key == k && (IsOpening(setup, store[k]) || setup.canonical(store[k]))
  }

  // Every canonical event of the blocks (floor, high] is stored, as it is, and no row was skipped.
  ghost predicate Complete(setup: Setup, store: map<Key, Event>, high: nat)
    requires ValidSetup(setup)
  {
    && (forall e: Event :: Floor(setup) < e.block <= high && setup.canonical(e) ==> e.key in store && store[e.key] == e)
    && (forall b: nat :: Floor(setup) < b <= high ==> setup.matched(b))
  }

  ghost predicate JobValid(setup: Setup, high: nat, job: Job)
  {
    match job
    case Reading(before) => before.cursor <= high
    case Ready(before, o) => before.cursor <= high && (o.Commit? ==> CanonicalCommit(setup, before.cursor, o))
    case AnchorReady(rows, block) => AnchorRows(setup, rows) && block == setup.anchor.value.block
  }

  ghost predicate Inv(setup: Setup, s: State)
    requires ValidSetup(setup)
  {
    && s.cp.cursor <= s.high
    && Sound(setup, s.store)
    && Complete(setup, s.store, s.high)
    && forall id :: id in s.jobs ==> JobValid(setup, s.high, s.jobs[id])
  }

  lemma InvInitial(setup: Setup, s: State)
    requires ValidSetup(setup) && Initial(s)
    ensures Inv(setup, s)
  {
  }

  // What a commit may insert: rows that are canonical, or openings.
  ghost predicate Storable(setup: Setup, events: seq<Event>)
    requires ValidSetup(setup)
  {
    forall e :: e in events ==> IsOpening(setup, e) || setup.canonical(e)
  }

  lemma StorableKeyUnique(setup: Setup, a: Event, b: Event)
    requires ValidSetup(setup) && Storable(setup, [a, b]) && a.key == b.key
    ensures a == b
  {
    assert a in [a, b] && b in [a, b];
  }

  // ON CONFLICT DO NOTHING loses nothing: the row already under a key is the same row.
  lemma InsertKeepsSound(setup: Setup, store: map<Key, Event>, events: seq<Event>)
    requires ValidSetup(setup) && Sound(setup, store) && Storable(setup, events)
    ensures Sound(setup, InsertAll(store, events))
    ensures forall e :: e in events ==> e.key in InsertAll(store, events) && InsertAll(store, events)[e.key] == e
    ensures forall k :: k in store ==> k in InsertAll(store, events) && InsertAll(store, events)[k] == store[k]
  {
    InsertAllFacts(store, events);
    var after := InsertAll(store, events);
    forall e | e in events ensures after[e.key] == e {
      if e.key in store {
        assert Storable(setup, [e, store[e.key]]);
        StorableKeyUnique(setup, e, store[e.key]);
      } else {
        assert after[e.key] in events;
        assert Storable(setup, [e, after[e.key]]);
        StorableKeyUnique(setup, e, after[e.key]);
      }
    }
  }

  lemma CommitCompletes(setup: Setup, s: State, cursor: nat, o: Outcome, high: nat)
    requires ValidSetup(setup) && Inv(setup, s) && cursor <= s.high && CanonicalCommit(setup, cursor, o)
    requires high <= s.high || high <= o.newCursor
    ensures Sound(setup, InsertAll(s.store, o.events))
    ensures Complete(setup, InsertAll(s.store, o.events), high)
  {
    InsertKeepsSound(setup, s.store, o.events);
    forall e: Event | Floor(setup) < e.block <= high && setup.canonical(e)
      ensures e.key in InsertAll(s.store, o.events) && InsertAll(s.store, o.events)[e.key] == e
    {
      if e.block > s.high { assert e in o.events; }
    }
  }

  lemma CommittedInv(setup: Setup, s: State, id: nat, cursor: nat, o: Outcome)
    requires ValidSetup(setup) && Inv(setup, s) && cursor <= s.high && CanonicalCommit(setup, cursor, o)
    ensures Inv(setup, Committed(s, id, o))
  {
    CommitCompletes(setup, s, cursor, o, Committed(s, id, o).high);
    JobsKeep(setup, s, Committed(s, id, o));
  }

  lemma CommitStepInv(setup: Setup, s: State, id: nat)
    requires ValidSetup(setup) && Inv(setup, s) && Enabled(setup, s, CommitJob(id))
    ensures Inv(setup, Apply(setup, s, CommitJob(id)))
  {
    var job := s.jobs[id];
    assert JobValid(setup, s.high, job);
    if job.outcome.Commit? {
      CommittedInv(setup, s, id, job.before.cursor, job.outcome);
    } else {
      JobsKeep(setup, s, Apply(setup, s, CommitJob(id)));
    }
  }

  lemma JobsKeep(setup: Setup, s: State, s': State)
    requires ValidSetup(setup)
    requires forall id :: id in s.jobs ==> JobValid(setup, s.high, s.jobs[id])
    requires s.high <= s'.high && forall id :: id in s'.jobs ==> id in s.jobs && s'.jobs[id] == s.jobs[id]
    ensures forall id :: id in s'.jobs ==> JobValid(setup, s'.high, s'.jobs[id])
  {
    forall id | id in s'.jobs ensures JobValid(setup, s'.high, s'.jobs[id]) {
      assert JobValid(setup, s.high, s.jobs[id]);
    }
  }

  lemma AnchorStepInv(setup: Setup, s: State, id: nat)
    requires ValidSetup(setup) && Inv(setup, s) && Enabled(setup, s, AnchorCommit(id))
    ensures Inv(setup, Apply(setup, s, AnchorCommit(id)))
  {
    var rows, s' := s.jobs[id].rows, Apply(setup, s, AnchorCommit(id));
    assert JobValid(setup, s.high, s.jobs[id]);
    InsertKeepsSound(setup, s.store, rows);
    JobsKeep(setup, s, s');
  }

  lemma SetJobInv(setup: Setup, s: State, id: nat, job: Job)
    requires ValidSetup(setup) && Inv(setup, s) && JobValid(setup, s.high, job)
    ensures Inv(setup, s.(jobs := s.jobs[id := job]))
  {
  }

  // Every step keeps the invariant.
  lemma InvStep(setup: Setup, s: State, step: Step)
    requires ValidSetup(setup) && Inv(setup, s) && Enabled(setup, s, step)
    ensures Inv(setup, Apply(setup, s, step))
  {
    match step
    case CommitJob(id) => CommitStepInv(setup, s, id);
    case AnchorCommit(id) => AnchorStepInv(setup, s, id);
    case SkipFetch(id, _) => JobsKeep(setup, s, Apply(setup, s, step));
    case Crash(id) => JobsKeep(setup, s, Apply(setup, s, step));
    case Read(id) =>
    case FetchWindow(id, o) =>
      assert JobValid(setup, s.high, s.jobs[id]);
      SetJobInv(setup, s, id, Ready(s.jobs[id].before, o));
    case Operator(status) =>
    case AnchorFetch(id, rows) =>
  }

  lemma {:induction false} InvRun(setup: Setup, s: State, steps: seq<Step>)
    requires ValidSetup(setup) && Inv(setup, s) && IsRun(setup, s, steps)
    ensures Inv(setup, After(setup, s, steps))
    decreases |steps|
  {
    if steps != [] {
      InvStep(setup, s, steps[0]);
      InvRun(setup, Apply(setup, s, steps[0]), steps[1..]);
    }
  }

  // ------------------------------------------------------------------ what follows for every run

  // After any run from an empty store: in the covered blocks, at or below the cursor, the rows
  // stored are exactly the canonical events. None is lost, none doubled, none renumbered.
  lemma StoreIsCanonical(setup: Setup, s: State, steps: seq<Step>, e: Event)
    requires ValidSetup(setup) && Initial(s) && IsRun(setup, s, steps)
    requires Floor(setup) < e.block <= After(setup, s, steps).cp.cursor
    ensures var store := After(setup, s, steps).store;
      e.key in store && store[e.key] == e <==> setup.canonical(e)
  {
    InvInitial(setup, s);
    InvRun(setup, s, steps);
    var s' := After(setup, s, steps);
    assert Complete(setup, s'.store, s'.high);
    assert IsOpening(setup, e) ==> e.block == Floor(setup);
  }

  // The cursor never passes a block with a row that matches no log: such a row wedges the stream.
  lemma PassedBlocksMatched(setup: Setup, s: State, steps: seq<Step>, b: nat)
    requires ValidSetup(setup) && Initial(s) && IsRun(setup, s, steps)
    requires Floor(setup) < b <= After(setup, s, steps).cp.cursor
    ensures setup.matched(b)
  {
    InvInitial(setup, s);
    InvRun(setup, s, steps);
  }

  // Anywhere in the store, above the cursor too, a row is the canonical row for its key.
  lemma EveryRowCanonical(setup: Setup, s: State, steps: seq<Step>, k: Key)
    requires ValidSetup(setup) && Initial(s) && IsRun(setup, s, steps)
    requires k in After(setup, s, steps).store
    ensures var e := After(setup, s, steps).store[k];
      e.key == k && (IsOpening(setup, e) || setup.canonical(e))
  {
    InvInitial(setup, s);
    InvRun(setup, s, steps);
  }

  // Pages never move the cursor back, and never touch a paused checkpoint.
  lemma PageCommitsMonotone(setup: Setup, s: State, step: Step)
    requires Enabled(setup, s, step) && !step.AnchorCommit?
    ensures s.cp.cursor <= Apply(setup, s, step).cp.cursor
    ensures s.cp.status == Paused && !step.Operator? ==> Apply(setup, s, step).cp == s.cp
  {
  }

  // ------------------------------------------------------------------ nothing above the cursor

  ghost predicate NothingAbove(s: State) {
    forall k :: k in s.store ==> s.store[k].block <= s.cp.cursor
  }

  // Steps that do not pause the target.
  predicate Unpausing(step: Step) { !(step.Operator? && step.status == Paused) }

  lemma CommittedNothingAbove(setup: Setup, s: State, id: nat, cursor: nat, o: Outcome)
    requires ValidSetup(setup) && NothingAbove(s) && s.cp.status != Paused && CanonicalCommit(setup, cursor, o)
    ensures NothingAbove(Committed(s, id, o))
  {
    InsertAllFacts(s.store, o.events);
    var s' := Committed(s, id, o);
    forall k | k in s'.store ensures s'.store[k].block <= s'.cp.cursor {
      if k !in s.store { assert s'.store[k] in o.events; }
    }
  }

  // After an anchor commit the stream is backfilling from the anchor block, whatever it was before, and
  // the block is on record.
  lemma AnchorCommitStarts(setup: Setup, s: State, id: nat)
    requires Enabled(setup, s, AnchorCommit(id))
    ensures Apply(setup, s, AnchorCommit(id)).cp.status == Backfilling
    ensures Apply(setup, s, AnchorCommit(id)).cp.cursor == s.jobs[id].block
    ensures Apply(setup, s, AnchorCommit(id)).cp.anchorBlock == Some(s.jobs[id].block)
    ensures forall k :: k in s.store ==>
      k in Apply(setup, s, AnchorCommit(id)).store && Apply(setup, s, AnchorCommit(id)).store[k] == s.store[k]
  {
    InsertAllFacts(s.store, s.jobs[id].rows);
  }

  // An anchor commit sets the cursor, lower or higher (checkpoint-repo.ts:131-139). Nothing is above it
  // afterwards exactly when nothing stored lies above the anchor's block.
  lemma AnchorCommitNothingAbove(setup: Setup, s: State, id: nat)
    requires ValidSetup(setup) && Inv(setup, s) && Enabled(setup, s, AnchorCommit(id))
    ensures NothingAbove(Apply(setup, s, AnchorCommit(id)))
       <==> forall k :: k in s.store ==> s.store[k].block <= s.jobs[id].block
  {
    var rows, s' := s.jobs[id].rows, Apply(setup, s, AnchorCommit(id));
    assert JobValid(setup, s.high, s.jobs[id]);
    InsertAllFacts(s.store, rows);
    forall k | k in s'.store && k !in s.store ensures s'.store[k].block == s.jobs[id].block {
      assert s'.store[k] in rows;
    }
    forall k | k in s.store ensures k in s'.store && s'.store[k] == s.store[k] {}
  }

  lemma NothingAboveStep(setup: Setup, s: State, step: Step)
    requires ValidSetup(setup) && Inv(setup, s) && NothingAbove(s) && s.cp.status != Paused
    requires Enabled(setup, s, step) && Unpausing(step)
    requires step.AnchorCommit? ==> s.cp.cursor <= s.jobs[step.id].block
    ensures NothingAbove(Apply(setup, s, step)) && Apply(setup, s, step).cp.status != Paused
  {
    if step.CommitJob? {
      var job := s.jobs[step.id];
      assert JobValid(setup, s.high, job);
      if job.outcome.Commit? {
        CommittedNothingAbove(setup, s, step.id, job.before.cursor, job.outcome);
      }
    }
    if step.AnchorCommit? { AnchorCommitNothingAbove(setup, s, step.id); }
  }

  // Nobody pauses the target, and no anchor commit lowers the cursor.
  ghost predicate Forward(setup: Setup, s: State, steps: seq<Step>)
    requires IsRun(setup, s, steps)
    decreases |steps|
  {
    steps == []
    || (Unpausing(steps[0])
        && (steps[0].AnchorCommit? ==> s.cp.cursor <= s.jobs[steps[0].id].block)
        && Forward(setup, Apply(setup, s, steps[0]), steps[1..]))
  }

  lemma {:induction false} NothingAboveFrom(setup: Setup, s: State, steps: seq<Step>)
    requires ValidSetup(setup) && Inv(setup, s) && NothingAbove(s) && s.cp.status != Paused
    requires IsRun(setup, s, steps) && Forward(setup, s, steps)
    ensures NothingAbove(After(setup, s, steps))
    decreases |steps|
  {
    if steps != [] {
      NothingAboveStep(setup, s, steps[0]);
      InvStep(setup, s, steps[0]);
      NothingAboveFrom(setup, Apply(setup, s, steps[0]), steps[1..]);
    }
  }

  // From an empty store, on runs without a pause whose anchor commits do not lower the cursor,
  // nothing is ever stored above it.
  lemma NothingAboveRun(setup: Setup, s: State, steps: seq<Step>)
    requires ValidSetup(setup) && Initial(s) && s.cp.status != Paused && IsRun(setup, s, steps)
             && Forward(setup, s, steps)
    ensures NothingAbove(After(setup, s, steps))
  {
    InvInitial(setup, s);
    NothingAboveFrom(setup, s, steps);
  }

  // Under a pause the rows still go in while the cursor stays: the store then reaches above the
  // cursor exactly when the fetched window held a canonical event there.
  lemma PausedCommit(setup: Setup, s: State, id: nat, cursor: nat, o: Outcome)
    requires ValidSetup(setup) && Inv(setup, s) && NothingAbove(s) && s.cp.status == Paused
    requires CanonicalCommit(setup, cursor, o)
    ensures Committed(s, id, o).cp == s.cp
    ensures NothingAbove(Committed(s, id, o)) <==>
      !exists e: Event :: cursor < e.block <= o.newCursor && s.cp.cursor < e.block && setup.canonical(e)
  {
    var s' := Committed(s, id, o);
    InsertKeepsSound(setup, s.store, o.events);
    InsertAllFacts(s.store, o.events);
    if e: Event :| cursor < e.block <= o.newCursor && s.cp.cursor < e.block && setup.canonical(e) {
      assert e in o.events;
      assert s'.store[e.key] == e;
    }
    if !NothingAbove(s') {
      var k :| k in s'.store && s'.store[k].block > s'.cp.cursor;
      assert s'.store[k] in o.events;
    }
  }
}
