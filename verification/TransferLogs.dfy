// The logs that token transfers emit (the Transfer event of ERC-20), and that matching rows to
// receipts (packages/ingestion/src/logindex.ts) finds them.

module TransferLogs {
  import opened Text
  import opened Types
  import opened LogIndex

  // ------------------------------------------------------------------ what a transfer emits

  // A 20-byte address: "0x" and 40 digits.
  predicate IsAddress(a: string) { |a| == 42 && a[..2] == "0x" }

  // An indexed address takes 32 bytes: twelve of zeros, then its own twenty.
  function Padded(a: string): (topic: string)
    requires IsAddress(a)
    ensures |topic| == 66
  {
    "0x000000000000000000000000" + Lower(a[2..])
  }

  // The hash of the signature Transfer(address,address,uint256).
  const SIGNATURE := "0xddf252ad1be2c89b69c2b068fc378daa952ba7f163c4a11628f55a4df523b3ef"

  // The event Transfer(address indexed from, address indexed to, uint256 value) of a contract: its
  // signature and the two parties as topics, in letters of either case, the value as data.
  predicate Emits(l: Log, contract: string, from: string, to: string, value: nat)
    requires IsAddress(from) && IsAddress(to)
  {
    && l.address == Lower(contract) && l.data == Some(value)
    && |l.topics| == 3 && Lower(l.topics[0]) == SIGNATURE
    && Lower(l.topics[1]) == Padded(from) && Lower(l.topics[2]) == Padded(to)
  }

  // The log is one that this row's own transfer emits.
  predicate EmittedFor(l: Log, r: Erc20Transfer)
    requires IsAddress(r.from) && IsAddress(r.to)
  {
    Emits(l, r.contract, r.from, r.to, r.value)
  }

  // Any log that looks like a transfer is one that some transfer emitted; other logs are anything.
  predicate LooksLikeTransfer(l: Log) { |l.topics| == 3 && Lower(l.topics[0]) == SIGNATURE }

  ghost predicate IsEmitted(l: Log) {
    exists contract, from, to, value :: IsAddress(from) && IsAddress(to) && Emits(l, contract, from, to, value)
  }

  ghost predicate TransfersEmitted(receipts: map<string, Receipt>) {
    forall h, l :: h in receipts && l in receipts[h].logs && LooksLikeTransfer(l) ==> IsEmitted(l)
  }

  predicate Addressed(rows: seq<Erc20Transfer>) {
    forall i :: 0 <= i < |rows| ==> IsAddress(rows[i].from) && IsAddress(rows[i].to)
  }

  // ------------------------------------------------------------------ a match is a log of the row

  lemma LowerTail(head: string, tail: string)
    ensures Lower(head + Lower(tail)) == Lower(head + tail)
  {
    forall i | 0 <= i < |head + tail| ensures Lower(head + Lower(tail))[i] == Lower(head + tail)[i] {
      if i >= |head| { assert (head + Lower(tail))[i] == LowerChar(tail[i - |head|]); }
    }
  }

  // What the code reads back from a padded topic.
  lemma PaddedReads(topic: string, a: string)
    requires IsAddress(a) && Lower(topic) == Padded(a)
    ensures TopicAddr(topic) == Lower(a)
  {
    var tail := topic[26..];
    forall i | 0 <= i < 40 ensures LowerChar(tail[i]) == Lower(a[2..])[i] {
      assert Lower(topic)[26 + i] == Padded(a)[26 + i];
    }
    assert Lower(tail) == Lower(a[2..]);
    LowerTail("0x", tail);
    LowerTail("0x", a[2..]);
    assert a == "0x" + a[2..];
  }

  lemma PaddedSame(a: string, b: string)
    requires IsAddress(a) && IsAddress(b) && Lower(a) == Lower(b)
    ensures Padded(a) == Padded(b)
  {
    forall i | 0 <= i < 40 ensures Lower(a[2..])[i] == Lower(b[2..])[i] {
      assert Lower(a)[i + 2] == Lower(b)[i + 2];
    }
    assert Lower(a[2..]) == Lower(b[2..]);
  }

  lemma OwnLogMatches(l: Log, r: Erc20Transfer)
    requires IsAddress(r.from) && IsAddress(r.to) && EmittedFor(l, r)
    ensures IsMatch(l, ClassOf(r))
  {
    PaddedReads(l.topics[1], r.from);
    PaddedReads(l.topics[2], r.to);
  }

  lemma MatchIsOwnLog(l: Log, r: Erc20Transfer)
    requires IsAddress(r.from) && IsAddress(r.to) && IsMatch(l, ClassOf(r)) && (LooksLikeTransfer(l) ==> IsEmitted(l))
    ensures EmittedFor(l, r)
  {
    assert LooksLikeTransfer(l);
    var contract, from, to, value :| IsAddress(from) && IsAddress(to) && Emits(l, contract, from, to, value);
    PaddedReads(l.topics[1], from);
    PaddedReads(l.topics[2], to);
    PaddedSame(from, r.from);
    PaddedSame(to, r.to);
  }

  // ------------------------------------------------------------------ every row has its log

  // `at[i]` is the place in its receipt of the log that row i emitted: no log serves two rows.
  ghost predicate LogsOfRows(rows: seq<Erc20Transfer>, receipts: map<string, Receipt>, at: seq<nat>)
    requires Addressed(rows)
  {
    && |at| == |rows|
    && (forall i :: 0 <= i < |rows| ==> HasLogAt(rows[i], receipts, at[i]))
    && (forall i, j :: 0 <= i < j < |rows| && Lower(rows[i].hash) == Lower(rows[j].hash) ==> at[i] != at[j])
  }

  predicate HasLogAt(r: Erc20Transfer, receipts: map<string, Receipt>, at: nat)
    requires IsAddress(r.from) && IsAddress(r.to)
  {
    Lower(r.hash) in receipts && at < |receipts[Lower(r.hash)].logs| && EmittedFor(receipts[Lower(r.hash)].logs[at], r)
  }

  // No log stands twice in a receipt.
  ghost predicate LogsOnce(receipts: map<string, Receipt>) {
    forall h, i, j :: h in receipts && 0 <= i < j < |receipts[h].logs| ==>
      receipts[h].logs[i].logIndex != receipts[h].logs[j].logIndex
  }

  lemma OnceIsNumbered(receipts: map<string, Receipt>)
    requires LogsOnce(receipts)
    ensures LogsNumbered(receipts)
  {
    forall h, a, b | h in receipts && a in receipts[h].logs && b in receipts[h].logs && a.logIndex == b.logIndex
      ensures a == b {
      var i :| 0 <= i < |receipts[h].logs| && receipts[h].logs[i] == a;
      var j :| 0 <= j < |receipts[h].logs| && receipts[h].logs[j] == b;
    }
  }

  function IndexAt(r: Erc20Transfer, receipts: map<string, Receipt>, at: nat): nat
    requires IsAddress(r.from) && IsAddress(r.to) && HasLogAt(r, receipts, at)
  {
    receipts[Lower(r.hash)].logs[at].logIndex
  }

  ghost function IndexesAt(rows: seq<Erc20Transfer>, receipts: map<string, Receipt>, at: seq<nat>): (indexes: seq<nat>)
    requires Addressed(rows) && LogsOfRows(rows, receipts, at)
    ensures |indexes| == |rows|
    ensures forall i :: 0 <= i < |rows| ==> indexes[i] == IndexAt(rows[i], receipts, at[i])
  {
    seq(|rows|, i requires 0 <= i < |rows| => IndexAt(rows[i], receipts, at[i]))
  }

  // Rows of one class that hold different indexes hold as many as they are.
  lemma {:induction false} DistinctGivenSize(rows: seq<Erc20Transfer>, indexes: seq<nat>, c: Class)
    requires |rows| == |indexes|
    requires forall i, j ::
      0 <= i < j < |rows| && ClassOf(rows[i]) == c == ClassOf(rows[j]) ==> indexes[i] != indexes[j]
    ensures |Given(rows, indexes, c)| == CountClass(rows, c)
  {
    if rows != [] {
      var n := |rows| - 1;
      DistinctGivenSize(rows[..n], indexes[..n], c);
      assert rows == rows[..n] + [rows[n]] && indexes == indexes[..n] + [indexes[n]];
      GivenPush(rows[..n], indexes[..n], rows[n], indexes[n], c);
      if ClassOf(rows[n]) == c { assert indexes[n] !in Given(rows[..n], indexes[..n], c); }
    } else {
      assert Given(rows, indexes, c) == {};
    }
  }

  lemma SubsetSize(a: set<nat>, b: set<nat>)
    requires a <= b
    ensures |a| <= |b|
  {
    assert |b - a| + |a| == |b|;
  }

  lemma ClassHasLogs(rows: seq<Erc20Transfer>, receipts: map<string, Receipt>, at: seq<nat>, k: nat)
    requires Addressed(rows) && LogsOnce(receipts) && LogsOfRows(rows, receipts, at) && k < |rows|
    ensures ClassOf(rows[k]).txHash in receipts
    ensures CountClass(rows, ClassOf(rows[k])) <= |MatchIndexes(receipts[ClassOf(rows[k]).txHash], ClassOf(rows[k]))|
  {
    var c, indexes := ClassOf(rows[k]), IndexesAt(rows, receipts, at);
    assert HasLogAt(rows[k], receipts, at[k]);
    forall i, j | 0 <= i < j < |rows| && ClassOf(rows[i]) == c == ClassOf(rows[j]) ensures indexes[i] != indexes[j] {
      assert HasLogAt(rows[i], receipts, at[i]) && HasLogAt(rows[j], receipts, at[j]);
      assert at[i] != at[j];
    }
    DistinctGivenSize(rows, indexes, c);
    forall x | x in Given(rows, indexes, c) ensures x in MatchIndexes(receipts[c.txHash], c) {
      var i :| 0 <= i < |rows| && ClassOf(rows[i]) == c && indexes[i] == x;
      assert HasLogAt(rows[i], receipts, at[i]);
      OwnLogMatches(receipts[c.txHash].logs[at[i]], rows[i]);
    }
    SubsetSize(Given(rows, indexes, c), MatchIndexes(receipts[c.txHash], c));
  }

  // A place in its receipt of the log whose index a row was given.
  lemma PlaceOf(rows: seq<Erc20Transfer>, receipts: map<string, Receipt>, i: nat) returns (at: nat)
    requires Addressed(rows) && TransfersEmitted(receipts) && Assigned(rows, receipts).Ok? && i < |rows|
    ensures HasLogAt(rows[i], receipts, at) && IndexAt(rows[i], receipts, at) == Assigned(rows, receipts).value[i]
  {
    var c := ClassOf(rows[i]);
    GivenMatches(rows, receipts, i);
    var l :| l in receipts[c.txHash].logs && IsMatch(l, c) && l.logIndex == Assigned(rows, receipts).value[i];
    at :| 0 <= at < |receipts[c.txHash].logs| && receipts[c.txHash].logs[at] == l;
    MatchIsOwnLog(l, rows[i]);
  }

  lemma {:induction false} PlacesOf(rows: seq<Erc20Transfer>, receipts: map<string, Receipt>, n: nat)
      returns (at: seq<nat>)
    requires Addressed(rows) && TransfersEmitted(receipts) && Assigned(rows, receipts).Ok? && n <= |rows|
    ensures |at| == n
    ensures forall i :: 0 <= i < n ==> HasLogAt(rows[i], receipts, at[i])
                                       && IndexAt(rows[i], receipts, at[i]) == Assigned(rows, receipts).value[i]
  {
    if n == 0 {
      at := [];
    } else {
      var before := PlacesOf(rows, receipts, n - 1);
      var last := PlaceOf(rows, receipts, n - 1);
      at := before + [last];
    }
  }

  lemma MatchedHasLogs(rows: seq<Erc20Transfer>, receipts: map<string, Receipt>) returns (at: seq<nat>)
    requires Addressed(rows) && TransfersEmitted(receipts) && Assigned(rows, receipts).Ok?
    ensures LogsOfRows(rows, receipts, at) && IndexesAt(rows, receipts, at) == Assigned(rows, receipts).value
  {
    at := PlacesOf(rows, receipts, |rows|);
    forall i, j | 0 <= i < j < |rows| && Lower(rows[i].hash) == Lower(rows[j].hash) ensures at[i] != at[j] {
      IndexesDistinctPerTx(rows, receipts, i, j);
    }
  }

  lemma LogsMatched(rows: seq<Erc20Transfer>, receipts: map<string, Receipt>, at: seq<nat>)
    requires Addressed(rows) && LogsOnce(receipts) && LogsOfRows(rows, receipts, at)
    ensures Assigned(rows, receipts).Ok?
  {
    OnceIsNumbered(receipts);
    forall k | 0 <= k < |rows|
      ensures ClassOf(rows[k]).txHash in receipts
      ensures CountClass(rows, ClassOf(rows[k])) <= |MatchIndexes(receipts[ClassOf(rows[k]).txHash], ClassOf(rows[k]))|
    {
      ClassHasLogs(rows, receipts, at, k);
    }
    SucceedsIffEnoughLogs(rows, receipts);
  }

  // The matching succeeds exactly when every row has a log of its own among the logs its transaction
  // emitted, whatever other logs there are; and then each row is given the index of a log emitted by
  // its own contract, for its own sender, receiver and value.
  lemma MatchingFindsLogs(rows: seq<Erc20Transfer>, receipts: map<string, Receipt>)
    requires Addressed(rows) && LogsOnce(receipts) && TransfersEmitted(receipts)
    ensures Assigned(rows, receipts).Ok? <==> exists at :: LogsOfRows(rows, receipts, at)
    ensures Assigned(rows, receipts).Ok? ==> forall i :: 0 <= i < |rows| ==>
      HasOwnLog(rows[i], receipts, Assigned(rows, receipts).value[i])
  {
    if at :| LogsOfRows(rows, receipts, at) { LogsMatched(rows, receipts, at); }
    if Assigned(rows, receipts).Ok? {
      var at := MatchedHasLogs(rows, receipts);
      forall i | 0 <= i < |rows| ensures HasOwnLog(rows[i], receipts, Assigned(rows, receipts).value[i]) {
        assert HasLogAt(rows[i], receipts, at[i]);
        assert IndexesAt(rows, receipts, at)[i] == IndexAt(rows[i], receipts, at[i]);
      }
    }
  }

  // The row's transaction holds a log of this index that its own transfer emitted.
  ghost predicate HasOwnLog(r: Erc20Transfer, receipts: map<string, Receipt>, index: nat)
    requires IsAddress(r.from) && IsAddress(r.to)
  {
    Lower(r.hash) in receipts
    && exists l :: l in receipts[Lower(r.hash)].logs && EmittedFor(l, r) && l.logIndex == index
  }
}
