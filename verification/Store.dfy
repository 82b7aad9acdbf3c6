// The append-only event store behind one cursor (packages/ingestion/src/write/checkpoint-repo.ts,
// event-writer.ts, token-repo.ts): one target's checkpoint, the tokens table and the event rows.

module Store {
  import opened Text
  import opened Types

  datatype Status = Queued | Anchoring | Backfilling | Live | Paused | ErrorStatus

  datatype Checkpoint = Checkpoint(status: Status, cursor: nat, anchorBlock: Option<nat>)

  // ------------------------------------------------------------------ the store as a map

  // ON CONFLICT (chain_id, tx_hash, log_index, token_id) DO NOTHING.
  function InsertEvent(store: map<Key, Event>, e: Event): map<Key, Event> {
    if e.key in store then store else store[e.key := e]
  }

  function InsertAll(store: map<Key, Event>, events: seq<Event>): map<Key, Event> {
    if events == [] then store
    else InsertEvent(InsertAll(store, events[..|events| - 1]), events[|events| - 1])
  }

  lemma {:induction false} InsertAllFacts(store: map<Key, Event>, events: seq<Event>)
    ensures forall k :: k in store ==> k in InsertAll(store, events) && InsertAll(store, events)[k] == store[k]
    ensures forall k :: k in InsertAll(store, events) && k !in store ==>
      InsertAll(store, events)[k] in events && InsertAll(store, events)[k].key == k
    ensures forall e :: e in events ==> e.key in InsertAll(store, events)
  {
    if events != [] {
      InsertAllFacts(store, events[..|events| - 1]);
    }
  }

  // checkpoint-repo.ts:207-219: GREATEST on the cursor, and a paused row is left untouched.
  function AdvanceCheckpoint(cp: Checkpoint, newCursor: int, status: Status): Checkpoint {
    if cp.status == Paused then cp
    else cp.(status := status, cursor := if newCursor > cp.cursor then newCursor else cp.cursor)
  }

  // checkpoint-repo.ts:131-139: no GREATEST and no pause guard.
  function AnchorCheckpoint(cp: Checkpoint, anchorBlock: nat): Checkpoint {
    Checkpoint(Backfilling, anchorBlock, Some(anchorBlock))
  }

  // ------------------------------------------------------------------ the tables

  datatype RowKey = RowKey(txHash: string, logIndex: int, tokenId: nat)

  class Database {
    var tokens: map<Token, nat>
    var nextTokenId: nat
    var rows: map<RowKey, Event>
    var checkpoint: Checkpoint
    // The events stored, by the key that names the token itself.
    ghost var store: map<Key, Event>

    ghost predicate TokensValid()
      reads this
    {
      && (forall t :: t in tokens ==> tokens[t] < nextTokenId)
      && (forall t, u :: t in tokens && u in tokens && tokens[t] == tokens[u] ==> t == u)
    }

    ghost predicate Valid()
      reads this
    {
      && TokensValid()
      && (forall k :: k in store ==>
            store[k].key == k && k.token in tokens
            && RowKey(k.txHash, k.logIndex, tokens[k.token]) in rows
            && rows[RowKey(k.txHash, k.logIndex, tokens[k.token])] == store[k])
      && (forall rk :: rk in rows ==>
            rows[rk].key in store && store[rows[rk].key] == rows[rk] && rows[rk].key.token in tokens
            && rk == RowKey(rows[rk].key.txHash, rows[rk].key.logIndex, tokens[rows[rk].key.token]))
    }

    constructor ()
      ensures Valid() && store == map[] && checkpoint == Checkpoint(Queued, 0, None)
    {
      tokens, nextTokenId, rows := map[], 0, map[];
      checkpoint := Checkpoint(Queued, 0, None);
      store := map[];
    }

    // checkpoint-repo.ts:185-196: the token's row, inserted on first sight.
    method UpsertToken(t: Token) returns (id: nat)
      requires Valid()
      modifies this`tokens, this`nextTokenId
      ensures Valid()
      ensures t in tokens && id == tokens[t]
      ensures forall u :: u in old(tokens) ==> u in tokens && tokens[u] == old(tokens)[u]
    {
      if t !in tokens {
        tokens := tokens[t := nextTokenId];
        nextTokenId := nextTokenId + 1;
      }
      id := tokens[t];
    }

    // event-writer.ts:30-38, for one row of the statement.
    method InsertRow(e: Event, tokenId: nat) returns (inserted: nat)
      requires Valid() && e.key.token in tokens && tokenId == tokens[e.key.token]
      modifies this`rows, this`store
      ensures Valid()
      ensures store == InsertEvent(old(store), e)
      ensures inserted == |store| - |old(store)|
    {
      var rk := RowKey(e.key.txHash, e.key.logIndex, tokenId);
      inserted := 0;
      if rk !in rows {
        assert e.key !in store;
        rows := rows[rk := e];
        store := store[e.key := e];
        inserted := 1;
      }
    }

    method InsertRows(events: seq<Event>, ids: seq<nat>) returns (inserted: nat)
      requires Valid() && |ids| == |events|
      requires forall i :: 0 <= i < |events| ==> events[i].key.token in tokens && ids[i] == tokens[events[i].key.token]
      modifies this`rows, this`store
      ensures Valid()
      ensures store == InsertAll(old(store), events)
      ensures inserted == |store| - |old(store)|
    {
      inserted := 0;
      for i := 0 to |events|
        invariant Valid()
        invariant store == InsertAll(old(store), events[..i])
        invariant inserted == |store| - |old(store)|
      {
        assert events[..i + 1][..i] == events[..i];
        var n := InsertRow(events[i], ids[i]);
        inserted := inserted + n;
      }
      assert events[..|events|] == events;
    }

    // checkpoint-repo.ts:178-201: token ids through a per-page cache.
    method ResolveTokens(events: seq<Event>) returns (ids: seq<nat>)
      requires Valid()
      modifies this`tokens, this`nextTokenId
      ensures Valid() && |ids| == |events|
      ensures forall i :: 0 <= i < |events| ==> events[i].key.token in tokens && ids[i] == tokens[events[i].key.token]
    {
      var cache: map<Token, nat> := map[];
      ids := [];
      for i := 0 to |events|
        invariant Valid() && |ids| == i
        invariant forall t :: t in cache ==> t in tokens && cache[t] == tokens[t]
        invariant forall k :: 0 <= k < i ==> events[k].key.token in tokens && ids[k] == tokens[events[k].key.token]
      {
        var t := events[i].key.token;
        if t !in cache {
          var id := UpsertToken(t);
          cache := cache[t := id];
        }
        ids := ids + [cache[t]];
      }
    }

    // checkpoint-repo.ts:170-223: one transaction.
    method CommitPage(events: seq<Event>, newCursor: int, status: Status) returns (inserted: nat)
      requires Valid()
      modifies this
      ensures Valid()
      ensures store == InsertAll(old(store), events)
      ensures checkpoint == AdvanceCheckpoint(old(checkpoint), newCursor, status)
      ensures inserted == |store| - |old(store)|
    {
      var ids := ResolveTokens(events);
      inserted := InsertRows(events, ids);
      if checkpoint.status != Paused {
        checkpoint := checkpoint.(
          cursor := if newCursor > checkpoint.cursor then newCursor else checkpoint.cursor,
          status := status);
      }
    }

    // checkpoint-repo.ts:123-147.
    method CommitAnchor(events: seq<Event>, anchorBlock: nat) returns (inserted: nat)
      requires Valid()
      modifies this
      ensures Valid()
      ensures store == InsertAll(old(store), events)
      ensures checkpoint == AnchorCheckpoint(old(checkpoint), anchorBlock)
      ensures inserted == |store| - |old(store)|
    {
      var ids := ResolveTokens(events);
      inserted := InsertRows(events, ids);
      checkpoint := checkpoint.(status := Backfilling, anchorBlock := Some(anchorBlock), cursor := anchorBlock);
    }
  }
}
