# A verified model of the reconciliation ledger

This project models, in Dafny, how the repository turns paged provider data into an append-only
event store, and what it then computes from that store. Most of it is about one question: are the
figures right, whatever providers, retries, pauses and concurrent writers do.

* **Ingestion.** A chain is an immutable map from blocks to rows (`ChainModel`). A run reads its
  checkpoint, fetches a window that may be cut at the page limit, derives events from it
  (`Normalize`, `LogIndex`), withholds what lies above the cursor it may claim, and commits
  (`Ingest`, `Store`). `Protocol` lets any number of such jobs interleave with anchor jobs, crashes,
  retries and operator changes of status; `Runs` instantiates it on a concrete chain. `Backfill` adds
  the re-enqueue chain and the tail tick, `Windows` tells when a page is full, `FullPages` has the chains
  on which job and tick break their promises; `Anchoring` and `AnchoredBalance` are the opening balances.
  `TransferLogs` says what logs transfers emit, `Provenance` what every stored row says of the chain.
* **Ledger.** The folds over events and their laws (`Ledger`, `LedgerLaws`, `FlowLaws`), how normalized events
  move balances (`Derivation`), keyset paging (`ListEvents`) and citations (`Refs`).
* **Reconciliation.** One decision in one transaction (`Decisions`), the system of concurrent
  snapshot transactions around it (`Reconciliation`), what the audit rows tell (`AuditTrail`) and the
  report over it (`ReconStatus`).
* **Export and pricing.** Journals and rounding (`Rounding`, `Journal`, `JournalDrafts`,
  `JournalFile`, `FileColumns`), CSV and its reader (`Csv`), money strings (`Money`), valuation (`Pricing`).

Code that changes things step by step is a method or a class here (`Store.Database`,
`Decisions.TxHandle`, the folds, the loops), proved against a specification function; what the
repository promises is then proved of those functions and of whole runs.

`dafny verify dfyconfig.toml` checks everything.

## What is assumed

* One target chain and one tracked address per store: rows carry no chain id, and a page's rows are
  those that touch the address. `Sentinels.TwoAddressCollision` shows why two addresses that share a
  transaction are not covered: ranks are taken over the traces fetched for one address, and the key
  has no address in it.
* A provider page holds all rows of its window, or is full and holds all rows below its last block and
  any part of that block (`ChainModel.IsPage`). Reported heads are arbitrary. Receipts are true.
* Within one transaction all providers label traces usably or none does, and usable labels agree on
  the order (`Sentinels.OneRegime`). Where traces are calls of one tree and each provider labels by one of
  the two schemes in use, this is not assumed but proved (`ChainModel.TreeLabelsGiveRegimes`).
* A transaction lies in one block and occurs once in it; receipts number their logs without repeats.
  Log addresses are in small letters. Where `TransferLogs` and `Provenance` speak of tokens, parties are
  42-character addresses and every log with three topics and the Transfer signature is one that a
  transfer emitted.
* Numeric strings of providers and databases are the numbers they denote. Characters are Unicode
  scalar values, and lower-casing is that of the letters hexadecimal uses.
* Fiat amounts are exact: 36-digit minor units in reconciliation, reals in pricing and journals. The
  40-digit precision of the decimal library is not reached.

## Where the code and its documentation part

* `apps/worker/src/backfill.ts:2-4` promises to re-enqueue only when the checkpoint moved. It
  compares the cursor the page reports. On a paused stream the stored cursor stays while a full page
  reports an advance, so the job is enqueued again (`FullPages.PausedJobRequeues`). It happens exactly
  when the target is paused, its window fills a page and its next block does not
  (`Backfill.RequeueAdvances`).
* `packages/ingestion/src/processors/tail.ts:11-15` says that streams pushed to `backfilling` are handed
  over. A run that throws later in the same tick loses the hand-over
  (`FullPages.SecondStreamStrandsFirst`); `Backfill.TickStrands` says for which checkpoints and chains.
* `packages/ingestion/src/processors/ingest.ts:117` is never reached: its branch has `safe` at or below the
  cursor.
* `packages/exporters/src/journal.ts:25` calls the residue zero always. It is zero exactly when the lines do
  not diverge by an odd number of half cents (`Journal.BalanceJournal`, `Journal.HalfCentDiverges`). The
  rounding line that `packages/exporters/src/journal.ts:7-8` describes is never written by `buildJournalDraft`.
* `packages/ingestion/src/normalize.ts:212` says that traces without a receiver move no value. A creation
  that sends value does (`Derivation.CreationMissed`); the derived balance is right exactly when the
  account funded no creation (`Derivation.BalanceRightIff`).
* A CSV row with no cells is written as an empty line, which a reader takes for one empty cell
  (`Csv.FileReadsBack`).
* An anchored stream counts a row twice that was stored from at or below its anchor
  (`AnchoredBalance.EarlyRowCountsTwice`); `AnchoredBalance.AnchoredRunBalance` says exactly when it is
  right. The row need not come from the stream itself: the table is shared by all tracked addresses
  (`AnchoredBalance.ForeignRowsShift`).
* An anchor job that runs again below the cursor lowers it and leaves the rows above it stored
  (`Protocol.AnchorCommitNothingAbove`).

## Model

| member | source | states |
|---|---|---|
| TraceOrder.CompareLabelsTotalOrder | packages/ingestion/src/normalize.ts:65-116 | the label comparator is a strict total order on all strings: zero only on equal labels, antisymmetric, transitive |
| TraceOrder.CompareDecimalDigits | packages/ingestion/src/normalize.ts:49-63 | comparing digits without parsing gives the numeric order, leading zeros included |
| TraceOrder.CompareTraceIds | packages/ingestion/src/normalize.ts:84-116 | the segment loop computes the order above |
| TraceOrder.PathMeans | packages/ingestion/src/normalize.ts:21-38 | a label counts as a path exactly when it is digits with single underscores between them, none at an end |
| TraceOrder.LabellingSchemesAgree | packages/ingestion/src/types.ts:47-56 | for any two calls of any call tree, underscore paths and plain ordinals both compare as the calls are executed; a root call given the empty path is the only one without a path label |
| Normalize.CompareKeysTotalOrder | packages/ingestion/src/normalize.ts:124-140 | the sort key of traces, by label or by (from, to, value), is a total order, so `sort` is defined on it |
| Normalize.RankAll | packages/ingestion/src/normalize.ts:249-285 | the rank table gives each value move its position in its transaction's sorted group |
| Normalize.GroupByTx | packages/ingestion/src/normalize.ts:242-248 | grouping holds every value move under its transaction, in arrival order |
| Normalize.EmitInternal | packages/ingestion/src/normalize.ts:237-322 | internal events carry the ranks of the specification; a missing rank cannot happen |
| Normalize.Normalize | packages/ingestion/src/normalize.ts:157-354 | it fails exactly when a needed receipt is missing, and otherwise emits the specified events |
| Derivation.NormalizeIgnoresOrder | packages/ingestion/src/normalize.ts:214-221 | the events, with key, parties, amount and block, depend on the set of rows and not on their arrival order, in both comparator regimes, ties included |
| Derivation.BalanceIsRowArithmetic | packages/ingestion/src/normalize.ts:168-213 | the balance fold over the derived events is received less sent less the fees charged for the account's own transactions, failed ones costing only their fee, off by exactly the value of receiver-less traces; fees are those of the rows' and receipts' own fields |
| Derivation.BalanceRightIff | packages/ingestion/src/normalize.ts:208-213 | that balance is never too low, and right exactly when the account funded no creation |
| Derivation.CreationMissed | packages/ingestion/src/normalize.ts:208-213 | a creation with 5 of value takes 5 from the account and derives no event |
| Derivation.FeeLowersBalance | packages/ingestion/src/normalize.ts:356-368 | an account's own transaction, failed or not, lowers its derived balance by the row's gas times its price, or by the receipt's gas times its effective price and its data fee, if any |
| Derivation.Erc20BalanceIsRowArithmetic | packages/ingestion/src/normalize.ts:324-351 | the same of token transfers, whatever log each was matched to |
| Sentinels.ArrivalOrderIrrelevant | packages/ingestion/src/normalize.ts:214-221 | one transaction's traces in any order derive the same events under the same keys |
| Sentinels.FailoverIrrelevant | packages/ingestion/src/normalize.ts:214-221 | whole transactions served by either provider derive the same events, where their labels are of one regime |
| Sentinels.TreesGiveOneRegime | packages/ingestion/src/types.ts:47-56 | any calls picked from a tree, labelled by paths or by ordinals, are of one regime: both providers are usable and order the picked calls alike |
| Sentinels.TreeRanksSurviveFailover | packages/ingestion/src/normalize.ts:214-221 | picked calls of a tree served under path labels or under ordinals, each in any order, derive the same events with the same ranks |
| ChainModel.TreeLabelsGiveRegimes | packages/ingestion/src/types.ts:47-56 | a chain whose providers each label by one of the two schemes meets the regime condition of a well-formed chain |
| Sentinels.KeysPairwiseDistinct | packages/ingestion/src/normalize.ts:185-206 | native, gas, internal and erc20 events of a page never share an idempotency key |
| Sentinels.TwoAddressCollision | packages/ingestion/src/normalize.ts:223-230 | two tracked addresses paid in one transaction derive one key for two different moves |
| Provenance.NativeEventsTell | packages/ingestion/src/normalize.ts:168-206 | the native events of a page are exactly what its transactions say field by field: the transfer of each that moved value, and a fee for each of the account itself |
| Provenance.FailsWithoutReceipt | packages/ingestion/src/normalize.ts:356-366 | a page fails exactly when fees come from receipts and a transaction of the account itself has none |
| Provenance.InternalEventsTell | packages/ingestion/src/normalize.ts:237-322 | the internal events are exactly what the traces say that moved value, numbered from -1000 down by their rank |
| Provenance.RankedAreMoving | packages/ingestion/src/normalize.ts:237-248 | what is ranked is all that moved value in the transaction, each trace as often as it was served |
| Provenance.RanksFollow | packages/ingestion/src/normalize.ts:249-285 | ranks follow the labels where every ranked trace has a usable one of its own, and sender, receiver and value where not |
| Provenance.OpeningKeysDiffer | packages/ingestion/src/write/anchor-writer.ts:22-24 | two openings share a transaction hash exactly when they are of the same address, letters of either case, and the same block |
| Text.LowerMeans | packages/ingestion/src/normalize.ts:157-164 | folding leaves no capital letter, changes nothing else and keeps places |
| LogIndex.FindMatch | packages/ingestion/src/logindex.ts:50-66 | filter, sort and first match find the least unconsumed matching index, or none exactly when there is none |
| LogIndex.AssignErc20Metadata | packages/ingestion/src/logindex.ts:35-71 | the walk over rows computes the specified assignment, error included |
| TransferLogs.MatchingFindsLogs | packages/ingestion/src/logindex.ts:24-69 | on receipts whose transfers emitted the logs of their signature with padded parties, among any other logs, the matching succeeds exactly when each row has such a log of its own, and gives each row the index of one that its own contract emitted for its own sender, receiver and value |
| LogIndex.SucceedsIffEnoughLogs | packages/ingestion/src/logindex.ts:5-11 | matching succeeds exactly when, for every class of identical rows, the rows do not outnumber the matching logs |
| LogIndex.GivenIsLowest | packages/ingestion/src/logindex.ts:5-6 | each class holds exactly its k lowest log indexes, k being the number of its rows: every index given is below every matching one not given |
| LogIndex.IndexesDistinctPerTx | packages/ingestion/src/logindex.ts:5-6 | two rows of one transaction never get the same index |
| LogIndex.GivenDependsOnCount | packages/ingestion/src/logindex.ts:35-71 | the indexes of a class depend on how many rows it has, not on row order or on what else was fetched |
| CanonicalKeys.CanonicalKeyUnique | packages/ingestion/src/write/event-writer.ts:10-15 | over the whole chain a key names one canonical event |
| Committable.Erc20Forward | packages/ingestion/src/processors/ingest.ts:181-202 | an erc20 event at or below the cursor, derived from a page cut anywhere, is the canonical event of its block |
| Committable.Erc20Backward | packages/ingestion/src/processors/ingest.ts:181-202 | every canonical erc20 event of the passed blocks is derived from the page |
| Committable.InternalCommit | packages/ingestion/src/processors/ingest.ts:181-202 | the same of ranked internal events, both ways: a truncated transaction is never stored under partial ranks |
| Committable.PassedBlocksMatch | packages/ingestion/src/logindex.ts:9-11 | the cursor never passes a block with a row that matches no log |
| Ingest.MinCandidateIsLeast | packages/ingestion/src/processors/ingest.ts:69-71 | the stream's cursor is the least of its pages' candidates |
| Ingest.CursorInWindow | packages/ingestion/src/processors/ingest.ts:50-78 | the resolved cursor never falls behind the old one nor passes the safe head, and is the safe head when no page is full |
| Ingest.StalledPagesNamed | packages/ingestion/src/processors/ingest.ts:66-78 | the pages a stall names are the full ones behind the least candidate, and one of them ends in the block after it |
| Ingest.DecideFetch | packages/ingestion/src/processors/ingest.ts:162-203 | stall check, status and withholding follow the specification |
| Ingest.IngestOnce | packages/ingestion/src/processors/ingest.ts:80-205 | a run ends as its outcome says: skips and failures change nothing, a commit inserts its events and moves the checkpoint |
| Ingest.CommitAdvances | packages/ingestion/src/processors/ingest.ts:162-180 | a committing run moves strictly forward, inside its window, and is live only at the safe head |
| Ingest.CommitIsCanonical | packages/ingestion/src/processors/ingest.ts:181-203 | a run commits exactly the canonical events above its old cursor and up to its new one, however its pages were cut |
| Store.InsertAllFacts | packages/ingestion/src/write/event-writer.ts:30-38 | an insert never changes or removes a stored row, and leaves some row under every key it was given |
| Store.Database.ResolveTokens | packages/ingestion/src/write/checkpoint-repo.ts:178-201 | the per-page cache gives every event the id its token has in the table |
| Store.Database.CommitPage | packages/ingestion/src/write/checkpoint-repo.ts:170-223 | one transaction inserts the rows, advances the cursor by GREATEST, leaves a paused checkpoint untouched and counts what is new |
| Store.Database.CommitAnchor | packages/ingestion/src/write/checkpoint-repo.ts:123-147 | the baseline goes in and the cursor is set to the anchor block, lower or not, paused or not |
| Protocol.InvStep | packages/ingestion/src/processors/ingest.ts:80-205 | every step of every job keeps the store complete below the highest cursor there has been, and every row canonical |
| Protocol.StoreIsCanonical | packages/ingestion/src/processors/ingest.ts:181-203 | after any interleaving, in the covered blocks at or below the cursor the rows stored are exactly the canonical events |
| Protocol.EveryRowCanonical | packages/ingestion/src/write/event-writer.ts:10-15 | every stored row, above the cursor too, is the canonical row for its key or the opening balance |
| Protocol.PassedBlocksMatched | packages/ingestion/src/logindex.ts:9-11 | after any run no covered block with an unmatched row lies below the cursor |
| Protocol.PageCommitsMonotone | packages/ingestion/src/write/checkpoint-repo.ts:154-165 | only an anchor commit can lower the cursor, and only the operator and anchor jobs move a paused checkpoint |
| Protocol.AnchorCommitNothingAbove | packages/ingestion/src/write/checkpoint-repo.ts:131-139 | after an anchor commit nothing is stored above the cursor exactly when nothing was stored above the anchor block |
| Protocol.AnchorCommitStarts | packages/ingestion/src/write/checkpoint-repo.ts:123-147 | an anchor commit leaves the stream backfilling from the anchor block, which is on record, and every stored row as it was |
| Protocol.NothingAboveRun | packages/ingestion/src/processors/ingest.ts:181-195 | from an empty store, on runs without a pause whose anchor commits do not lower the cursor, nothing is stored above the cursor |
| Protocol.PausedCommit | packages/ingestion/src/write/checkpoint-repo.ts:161-168 | under a pause the store reaches above the cursor exactly when the fetched window held a canonical event there |
| Runs.FetchedIsCanonical | packages/ingestion/src/processors/ingest.ts:121-203 | on a concrete chain every outcome of an honest fetch is a canonical commit, which the protocol asks for |
| Runs.StoreMatchesChain | packages/ingestion/src/processors/ingest.ts:181-203 | over every interleaving on a concrete chain, stored below the cursor means derived from the whole block, and the other way round |
| Runs.StoredRowsMatchChain | packages/ingestion/src/write/event-writer.ts:30-38 | no stored row is anything but the chain's event for its key or the opening balance |
| Provenance.StoredRowsTell | packages/ingestion/src/write/event-writer.ts:30-38 | over every interleaving each stored row says field by field what the opening balance or one row of the chain says, a token row under the index of a log that its own transfer emitted |
| Provenance.NativeRowsAreStored | packages/ingestion/src/processors/ingest.ts:181-203 | in a covered block every transaction that moved value has its transfer stored, and each of the account itself its fee |
| Provenance.Erc20RowsAreStored | packages/ingestion/src/processors/ingest.ts:181-203 | every token transfer of a covered block is stored under the index of its own log |
| Provenance.TracesAreStored | packages/ingestion/src/processors/ingest.ts:181-203 | every trace of a covered block that moved value is stored |
| Runs.ChainMatchedBelowCursor | packages/ingestion/src/logindex.ts:9-11 | below the cursor of an erc20 stream every row of the chain has its log |
| Windows.PageFullIffWindow | packages/ingestion/src/processors/ingest.ts:50-78 | a page is full exactly when its window holds at least a page of rows |
| Backfill.StallsIffBlockFillsPage | packages/ingestion/src/processors/ingest.ts:163-179 | a run over a fetch it can process stalls exactly when the next block alone fills a page at some endpoint, and otherwise ends backfilling exactly when the window fills one |
| Backfill.OutcomeForetold | packages/ingestion/src/processors/ingest.ts:162-180 | before a run, from checkpoint, chain and safe head alone: it fails exactly when the next block fills a page, and ends backfilling exactly when the window does and that block does not |
| Backfill.RunFacts | packages/ingestion/src/processors/ingest.ts:162-180 | what a run over an honestly answered window comes to: a skip, a stall, or an advance that is live at the safe head or backfilling below it |
| Backfill.RunBackfillJob | apps/worker/src/backfill.ts:37-55 | the job re-enqueues, ends or throws as its run's outcome and the cursor before it say |
| Backfill.RequeueAdvances | apps/worker/src/backfill.ts:2-18 | a job re-enqueues exactly when its window fills a page and the next block alone does not; it does so without moving the stored cursor exactly when the target is also paused; it throws for no advance exactly on a backfilling stream with nothing to fetch, and for its page exactly when the next block fills one |
| FullPages.PausedJobRequeues | apps/worker/src/backfill.ts:2-18 | a well-formed chain and an honest answer for which a paused job re-enqueues with its checkpoint unmoved |
| Backfill.LinkProgress | apps/worker/src/backfill.ts:37-55 | with a good provider, an unpaused target and a next block below a page, each link moves the stored cursor, and one that does not re-enqueue is live at its safe head |
| Backfill.DrainChain | apps/worker/src/backfill.ts:37-55 | while blocks stay below a page of rows the chain ends, whatever the heads do, after at most one job more than blocks passed: live at the safe head of its last job, or thrown because that head went back behind a backfilling stream, or at a first job with nothing to fetch; live where heads only rise from above the cursor on |
| Backfill.RunTailTick | packages/ingestion/src/processors/tail.ts:24-35 | the tick over live streams leaves the checkpoints and returns the streams that its specification says |
| Backfill.TickPushes | packages/ingestion/src/processors/tail.ts:11-15 | the streams pushed are exactly the live ones that have left `live` |
| Backfill.TickStrands | packages/ingestion/src/processors/tail.ts:11-15 | from checkpoints, chains and safe head before the tick: some stream is left out of `live` and without a job exactly when the window of a live stream fills a page though its next block does not, no live stream before it is stuck, and a later live one is stuck at a block that fills a page |
| FullPages.SecondStreamStrandsFirst | packages/ingestion/src/processors/tail.ts:11-15 | for any two addresses and any window of two blocks or more: what they see of one chain, and honest answers, for which the second live stream strands the first |
| Anchoring.NativeBaselineReports | packages/ingestion/src/processors/anchor.ts:54-65 | the balance fold over the opening rows of the native baseline reports the attested balance, or nothing where it is not positive, in which case there is no row |
| Anchoring.Erc20Balances | packages/ingestion/src/processors/anchor.ts:67-86 | a baseline exactly for the curated contracts with a positive balance, with that balance |
| Anchoring.RunAnchor | packages/ingestion/src/processors/anchor.ts:30-52 | an anchor inside the unsafe tip is refused without effect; otherwise the opening rows of the resolved block are committed, on the erc20 stream for exactly the curated tokens of positive balance, and the cursor set there |
| AnchoredBalance.ReadAsOf | packages/ledger/src/fold.ts:34-48 | as of a covered time the fold reads the opening, any early rows, and every event of the blocks between the anchor and that time |
| AnchoredBalance.AnchoringStoresOpening | packages/ingestion/src/write/anchor-writer.ts:26-53 | once an anchor job has committed, its opening row stays stored, re-runs included |
| AnchoredBalance.AnchoredRunBalance | packages/ingestion/src/processors/anchor.ts:30-52 | after any run the anchored stream reports the full-history balance exactly when the rows stored from before the anchor cancel out, and they do when no page job ran before it |
| AnchoredBalance.AnchoredRunIs | packages/ingestion/src/processors/anchor.ts:30-52 | after any run the anchored stream reports the full-history balance plus what the rows stored at or below the anchor add to it |
| AnchoredBalance.EarlyRowCountsTwice | packages/ingestion/src/processors/anchor.ts:30-52 | from an `anchoring` checkpoint, with a true anchor and the true history: a run that stored a row the opening covers reports 10 where the true balance is 5 |
| AnchoredBalance.ForeignRowsShift | packages/ingestion/src/write/event-writer.ts:10-15 | rows of blocks the opening covers that another tracked address stored in the shared table put a stream that anchored first off by exactly their own sum |
| Anchoring.ChainAnchoredBalance | packages/ingestion/src/processors/anchor.ts:30-52 | the same on a concrete chain with honest fetches |
| Ledger.FoldBalances | packages/ledger/src/fold.ts:34-48 | a cell exists exactly for touched in-scope addresses and tokens, and holds the balance |
| Ledger.FoldFlows | packages/ledger/src/fold.ts:72-97 | per token, the external and the internal flow of the window with their transactions |
| Ledger.FoldCounterparties | packages/ledger/src/fold.ts:111-142 | per counterparty and token, the turnover of the window |
| Ledger.FoldGas | packages/ledger/src/fold.ts:145-162 | per token, gas amount and count of the window |
| FlowLaws.BalanceMeans | packages/ledger/src/fold.ts:26-48 | a balance is what the address received less what it sent, by events of any kind up to and on the date |
| FlowLaws.ExternalFlowMeans | packages/ledger/src/fold.ts:66-97 | external flow sums the transfers of the window with one end in scope by direction, and names exactly their transactions |
| FlowLaws.InternalFlowMeans | packages/ledger/src/fold.ts:66-97 | internal flow sums the transfers inside the scope on both sides, and names exactly their transactions |
| FlowLaws.CounterpartyFlowMeans | packages/ledger/src/fold.ts:105-142 | turnover sums what came from a counterparty and what went to it, and names exactly their transactions |
| FlowLaws.GasMeans | packages/ledger/src/fold.ts:144-162 | gas is the sum and the number of the fees that the scope paid in the window |
| LedgerLaws.FoldDecomposes | packages/ledger/src/fold.ts:34-48 | the cells the balance fold returns for a token add up over the scope to openings plus inflow less outflow less gas, as the other folds report them since the beginning |
| LedgerLaws.ScopeDecomposition | packages/ledger/src/fold.ts:7-9 | the same of what a scope gained over any window; transfers inside the scope cancel |
| LedgerLaws.Conservation | packages/ledger/src/fold.ts:29-48 | the balances of two dates differ by the window between them |
| LedgerLaws.BalancePermutation | packages/ledger/src/fold.ts:34-48 | the order in which rows are read does not matter |
| LedgerLaws.TurnoverSumsToFlow | packages/ledger/src/fold.ts:105-142 | turnover over all counterparties sums to the external flow, both ways |
| LedgerLaws.NetAggregates | packages/ledger/src/balances.ts:32-63 | netting the two grouped sums gives the balance fold: the same cells, the same amounts |
| ListEvents.List | packages/ledger/src/list-events.ts:20-144 | a page holds the first rows after the cursor, the next cursor exists exactly when more follow, the count is the first page's alone; a malformed minimum is an error only for a non-empty scope |
| ListEvents.DirectionMeans | packages/ledger/src/list-events.ts:106-135 | the direction of a listed row says which of its endpoints are in scope |
| ListEvents.PassesMeans | packages/ledger/src/list-events.ts:35-58 | the filter keeps exactly the rows wanted by each of scope, period, kinds, counterparty, tokens, verification, minimum and chains; the end of the period is outside |
| ListEvents.MinInBaseUnits | packages/ledger/src/list-events.ts:54-58 | where the token has decimals enough, a row reaches the minimum exactly when its amount is at least the parsed minimum |
| ListEvents.AscendingMeans | packages/ledger/src/list-events.ts:96-97 | listed rows stand by chain, block, log index and id |
| ListEvents.SortFilter | packages/ledger/src/list-events.ts:67-91 | sorting a filtered table is filtering the sorted one, which is what makes a keyset cursor a position |
| ListEvents.PagesConcatenate | packages/ledger/src/list-events.ts:55-144 | following the cursors lists exactly the rows that pass, in order, in no more requests than rows and one |
| ListEvents.PagesUnderAppends | packages/ledger/src/cursor.ts:1-7 | with rows appended between pages no row comes twice, every row there at the first page comes, and the listing ends once rows stop coming |
| Refs.BucketBacking | packages/ledger/src/backing.ts:17-33 | each bucket has its first 64 refs, the exact total, and is capped exactly when it has more than it shows |
| Refs.KeyStringInjective | packages/mcp-tools/src/refs.ts:35 | the dedupe key names its ref, whatever the transaction hash |
| Refs.DedupeRefs | packages/mcp-tools/src/refs.ts:31-41 | the same refs without repeats |
| Refs.SelectRefs | packages/mcp-tools/src/refs.ts:44-64 | inline refs within the cap, else the exact sum of totals, a sample and a drilldown without paging |
| Refs.CitationsComplete | packages/mcp-tools/src/refs.ts:44-64 | inline citations are exactly the refs of the events behind any bucket, though buckets are capped and share events |
| Decisions.DeriveMeans | packages/recon/src/match/status.ts:35-47 | matched is within one percent of the amount, open is nothing applied on a positive amount, and the other two lie below and above |
| Decisions.TxHandle.SumApplied | packages/mcp-tools/src/recon/decision-repo.ts:109-119 | the sum over an event's confirmed legs |
| Decisions.TxHandle.DecideMatchInTx | packages/mcp-tools/src/recon/decision-repo.ts:49-179 | a decision is refused for the specified reasons without effect, or stamps the leg and re-derives the record's status from its confirmed legs in its own currency |
| Decisions.TxHandle.RunDecision | packages/mcp-tools/src/write-tx.ts:70-92 | the decision and its audit row go in together or not at all |
| AuditTrail.AcceptedIff | packages/mcp-tools/src/recon/decision-repo.ts:56-125 | a decision goes through exactly on a suggested leg of the tenant, of a record of the tenant that is not void, and when confirming within what the event has left |
| AuditTrail.DecidedStatus | packages/mcp-tools/src/recon/decision-repo.ts:155-179 | the record's new status is the one its old sum derives, with the leg's worth added exactly if it was confirmed in the record's currency |
| AuditTrail.DecisionWrites | packages/mcp-tools/src/recon/decision-repo.ts:127-179 | a decision writes the leg, a new version of its record and one audit row, and leaves every other leg and record |
| Decisions.TxHandle.ReplaceSuggestions | packages/mcp-tools/src/recon/match-repo.ts:425-454 | under fresh ids, a leg is taken out exactly when it was suggested, of the tenant and of a record in scope; every other leg is unchanged, every pending leg is in, and nothing else comes in |
| Decisions.WithRetry | packages/mcp-tools/src/write-tx.ts:36-45 | the first attempt that does not ask for a retry is returned, after at most three |
| Reconciliation.CommitIsSerial | packages/mcp-tools/src/write-tx.ts:12-14 | a decision taken on a snapshot that validation lets through is the one the current tables give |
| Reconciliation.NeverOverApplied | packages/mcp-tools/src/recon/decision-repo.ts:97-125 | in every reachable state the confirmed legs of an event, per tenant, never exceed its amount |
| Reconciliation.StatusIsDerived | packages/mcp-tools/src/recon/decision-repo.ts:155-179 | in every reachable state a record that is not void has the status its confirmed own-currency legs derive once it has a decision, and is open before |
| Reconciliation.ConfirmPays | packages/mcp-tools/src/recon/decision-repo.ts:159-169 | confirming raises a record's sum by the leg's worth exactly when tenant, record and currency are the leg's own, and by nothing otherwise |
| AuditTrail.ForeignLegsLeaveOpen | packages/mcp-tools/src/recon/decision-repo.ts:155-169 | in every reachable state a record that is not void, of a positive amount, whose confirmed legs are all in foreign currencies, is open |
| AuditTrail.StatusFromTrail | packages/mcp-tools/src/recon/decision-repo.ts:155-179 | in every reachable state the audit rows alone tell the status of a record that is not void, by the one percent band around what they paid it |
| AuditTrail.AppliedByTrail | packages/mcp-tools/src/recon/decision-repo.ts:109-119 | what is applied to an event is what its confirming audit rows applied |
| Reconciliation.DecisionsAreFinal | packages/mcp-tools/src/recon/decision-repo.ts:73-95 | confirmed, rejected and void never change again, whatever decisions, re-suggestions or imports follow |
| Reconciliation.ActionedOnce | packages/mcp-tools/src/recon/decision-repo.ts:127-153 | every decided leg has one audit row and no other leg has any |
| Reconciliation.AttemptsRunOut | packages/mcp-tools/src/write-tx.ts:21-45 | each try ends the transaction or uses up one of three attempts on a fresh snapshot |
| Reconciliation.RowChecksAlone | packages/mcp-tools/src/recon/decision-repo.ts:127-133 | row checks alone keep every status right, and keep the event within its amount exactly when what is confirmed by now leaves room |
| Reconciliation.WriteSkew | packages/mcp-tools/src/recon/decision-repo.ts:97-125 | concrete tables on whose snapshot two confirms both pass; row checks let both through and apply 20 to an event of 10, validation refuses the second |
| ReconStatus.ClassOf | packages/mcp-tools/src/recon/status-repo.ts:145-183 | in consistent tables a settlement is in exactly one class, and the class says how much is applied |
| ReconStatus.SettlementsAreExternal | packages/mcp-tools/src/recon/status-repo.ts:132-143 | the settlements of a period are the verified rows of positive amount that the flow fold counts as coming in or going out |
| ReconStatus.SettlementsSplit | packages/mcp-tools/src/recon/status-repo.ts:121-184 | the two reported counts and the fully applied settlements add up to the settlements in scope |
| ReconStatus.SettlementsMoveForward | packages/mcp-tools/src/recon/status-repo.ts:121-184 | along any run what is applied only grows, so a settlement never moves back a class |
| ReconStatus.ReportedAmounts | packages/mcp-tools/src/recon/status-repo.ts:89-115 | open amounts are never negative and overpayments exceed a hundredth of their record |
| ReconStatus.MapStatusCounts | packages/mcp-tools/src/recon/status-repo.ts:213-226 | five keys always, each with its row's count or zero, other statuses dropped |
| ReconStatus.CountsPerStatus | packages/mcp-tools/src/recon/status-repo.ts:81-87 | over a grouped query the five numbers are the numbers of records per status |
| ReconStatus.CountsCoverRecords | packages/mcp-tools/src/recon/status-repo.ts:213-226 | the five numbers never exceed the records, and add up to them exactly when every record has one of the five statuses |
| Rounding.RoundHalfUpNearest | packages/exporters/src/decimal.ts:13-16 | rounding is to the nearest cent, halves away from zero, the identity on whole cents |
| Rounding.VatSplit | packages/exporters/src/decimal.ts:23-31 | the rounded net lies between nothing and the gross and within half a cent of the exact one |
| Rounding.NetAndVat | packages/exporters/src/decimal.ts:23-31 | the exact net and its VAT at the rate make up the gross |
| Journal.BalanceJournal | packages/exporters/src/journal.ts:47-67 | one correction line at most; the final residue is zero exactly when the lines do not diverge by an odd number of half cents |
| Journal.HalfCentDiverges | packages/exporters/src/journal.ts:25 | half a cent of debit is off by one cent after its correction |
| Journal.BuildJournalDraft | packages/exporters/src/journal.ts:76-112 | an error exactly for gas that rounds below zero; otherwise a balanced draft with no rounding line |
| Journal.MovementPostings | packages/exporters/src/journal.ts:79-93 | the asset account moves by the rounded net flows and suspense by as much the other way |
| Journal.GasPostings | packages/exporters/src/journal.ts:95-109 | gas moves from the asset to the fee account |
| JournalDrafts.EntryLines | packages/exporters/src/journal-drafts.ts:84-111 | a negative gross is the only error, a zero one posts nothing |
| JournalDrafts.EntryBalances | packages/exporters/src/journal-drafts.ts:84-111 | debits and credits of an entry are both its rounded gross, on one side per line, with net and VAT inside it; each line has the entry's number, date, text and currency |
| JournalDrafts.EntryPostings | packages/exporters/src/journal-drafts.ts:10-11 | receivables and payables move the asset, control and VAT accounts in opposite directions, and no other |
| JournalDrafts.BuildLines | packages/exporters/src/journal-drafts.ts:123-130 | numbering while building gives the specified lines |
| JournalDrafts.EachNumberOneEntry | packages/exporters/src/journal-drafts.ts:123-130 | the numbers are 1 to n over the entries that post, each with that entry's lines |
| JournalDrafts.NumberBalances | packages/exporters/src/journal-drafts.ts:132-140 | every journal number balances and has lines |
| JournalDrafts.CurrencyBalances | packages/exporters/src/journal-drafts.ts:141-157 | every currency's residue is zero, so the divergence error is unreachable |
| JournalDrafts.FileOrderIsNumberOrder | packages/exporters/src/journal-drafts.ts:117-157 | grouping by sorted currency leaves the numbered lines in their order |
| JournalDrafts.SortedStands | packages/exporters/src/journal-drafts.ts:117-122 | entries are numbered by currency, date and reference, payables before receivables |
| JournalFile.TwoPlacesReadsBack | packages/exporters/src/decimal.ts:13-16 | a printed amount parses back to the same cents |
| JournalFile.RenderJournalDrafts | packages/exporters/src/journal-drafts.ts:113-220 | a negative gross is the only error; lines, zero residues, unmapped categories and content follow from the sorted entries |
| JournalFile.FileRecovered | packages/exporters/src/journal-drafts.ts:168-183 | a reader of the file gets header, banner and one row per line back |
| FileColumns.FileTellsLines | packages/exporters/src/journal-drafts.ts:29-39 | whoever reads the file finds under each heading, by its name, what it names of the line: debits and credits to the cent, number, date, account, text and currency |
| FileColumns.RenderedFileTells | packages/exporters/src/journal-drafts.ts:113-183 | so does the rendered file, whatever the entries |
| Csv.EscapeField | packages/exporters/src/csv.ts:24-48 | a field is guarded and quoted as specified, a non-integral number refused |
| Csv.QuotesKeepEdges | packages/exporters/src/csv.ts:43-46 | a cell written without quotes has no delimiter, no quote and no blank at an end |
| Csv.ToCsv | packages/exporters/src/csv.ts:50-54 | the file is the specified one, or refused exactly when some cell cannot be written |
| Csv.ReadBack | packages/exporters/src/csv.ts:2-4 | an RFC 4180 reader recovers every cell of any text, a row without cells as one empty cell |
| Csv.FileReadsBack | packages/exporters/src/csv.ts:21-54 | reading undoes writing exactly when no row is without cells |
| Csv.GuardNeutralizes | packages/exporters/src/csv.ts:11-22 | the guard puts an apostrophe before exactly the cells that start with an operator or control character and are no signed decimal number, and no guarded cell is one |
| Csv.GuardConfuses | packages/exporters/src/csv.ts:36-41 | the guard loses only whether the apostrophe was there before |
| Money.FormatUnits | packages/core/src/money.ts:21-39 | the trimming loop prints the specified parts, the short cut for zero decimals included |
| Money.ParseOfFormat | packages/core/src/money.ts:41-54 | parsing undoes printing for every integer and every scale |
| Money.FormatCanonical | packages/core/src/money.ts:15-20 | printed strings are canonical: no spare zero, no bare point, no negative zero |
| Money.FormatOfParse | packages/core/src/money.ts:15-20 | printing is onto the canonical strings, and each is the only one of its value |
| Money.Canonicalizes | packages/core/src/money.ts:41-54 | printing what was parsed keeps the number and changes the string exactly when it was not canonical |
| Money.ParseAtScale | packages/core/src/money.ts:45-54 | a finer scale multiplies by the power of ten |
| Money.SubtractDecimal | packages/mcp-tools/src/recon/match-repo.ts:100-109 | the canonical exact difference at every scale that holds both numbers, an error exactly for a malformed one |
| Pricing.PickLatestRate | packages/pricing/src/fx.ts:46-54 | the row that beats every other row not after the date, or none when there is none |
| Pricing.BestMeans | packages/pricing/src/fx.ts:13-54 | the best row is the latest not after the date; on its day manual comes before the bank, that before others by name, and of one source the last row |
| Pricing.BestIndependentOfOrder | packages/pricing/src/fx.ts:23-30 | the choice depends on the set of rows and not on scan order |
| Pricing.BeatsTransitive | packages/pricing/src/fx.ts:31-37 | the preference between rows is transitive |
| Pricing.ValueOne | packages/pricing/src/value.ts:47-84 | the stated product with its refs, or an error exactly when the conversion is not available |
| Pricing.FiatConverts | packages/pricing/src/value.ts:40-47 | rates are dollars for a euro: dividing one way, multiplying the other |
| Pricing.ValueQuantities | packages/pricing/src/value.ts:95-164 | values stand in the order of the needs; a need has one exactly when its snapshot is in the target currency or a rate can bring it there, and it can be computed again from refs in the result, which say what the snapshot of the day and the best rate of the day say; no ref or warning is without a need |
| Pricing.WarnedMeans | packages/pricing/src/value.ts:120-158 | a token and date are warned of exactly when a need of them has no value, a date exactly when a need was valued at another day's rate, each once |

## Left out

- Provider adapters, JSON-RPC, receipts batching and failover mechanics: only the page contract is used.
- Postgres, Drizzle, BullMQ and Redis: tables are maps, transactions are steps, queues are loops.
- Several chains in one store, and several tracked addresses sharing a transaction's traces.
- A target without a checkpoint row, on which a run and a backfill job throw.
- Token decimals, symbols and names, the `raw` column, provider names and `unseenContracts`.
- Transactions whose traces are labelled by one provider and not by another.
- Opening balances of the erc20 stream are stored rows here; the balance theorem is for the native stream.
- Changes of the curated token set between two anchor runs, beyond what any opening row may be.
- Zero balances, which `computeBalances` drops from its rows after netting (packages/ledger/src/balances.ts:70).
- The JSON and base64url text of a list cursor: a cursor is its position here.
- An empty-string list cursor, which the code treats as absent in one branch and present in another.
- The matching engine and candidate valuation in `suggestMatches`: a run may propose anything for its records.
- Serialization failures that Postgres raises beyond the two-transaction cycle: allowing more commits makes the theorems stronger.
- Deletion of records with their legs, and un-voiding a record.
- The client filter of the reconciliation report, its period filter on records, and the order of its samples.
- Sanitizing of journal descriptions, period slugs, hashes and manifests.
- `String` of integers from 1e21 up, which prints an exponent.
- `pickSnapshot`: its ties fall to scan order, so the winning snapshots are a parameter.
- The reason texts of a missing price beyond which of the three cases it is.
- Rate limits, MCP plumbing, the eval harness, PDF rendering and the landing site.
- Sentinels.TwoAddressCollision: one example only, because the store theorems are for one tracked address.
- Backfill.DrainChain: nothing else moves the checkpoint while a chain drains, because under a pause it need not end (Backfill.RequeueAdvances).
