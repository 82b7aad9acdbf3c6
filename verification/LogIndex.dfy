// Receipt-derived log indexes of erc20 rows (packages/ingestion/src/logindex.ts): a greedy match
// of provider rows to Transfer logs.

module LogIndex {
  import opened Text
  import opened Types
  import opened Sequences

  const TRANSFER_TOPIC := "0xddf252ad1be2c89b69c2b068fc378daa952ba7f163c4a11628f55a4df523b3ef"

  datatype MatchError = MissingReceipt(txHash: string) | NoMatchingLog(txHash: string)

  // What a row is matched on, beside its transaction.
  datatype Class = Class(txHash: string, contract: string, from: string, to: string, value: nat)

  function ClassOf(row: Erc20Transfer): Class {
    Class(Lower(row.hash), Lower(row.contract), Lower(row.from), Lower(row.to), row.value)
  }

  // '0x' + topic.slice(-40), lower-cased.
  function TopicAddr(topic: string): string {
    Lower("0x" + if |topic| > 40 then topic[|topic| - 40..] else topic)
  }

  predicate IsCandidate(l: Log, c: Class) {
    |l.topics| == 3 && Lower(l.topics[0]) == TRANSFER_TOPIC && l.address == c.contract
  }

  predicate IsMatch(l: Log, c: Class) {
    IsCandidate(l, c) && TopicAddr(l.topics[1]) == c.from && TopicAddr(l.topics[2]) == c.to && l.data == Some(c.value)
  }

  // The log indexes a class can take in its receipt.
  function MatchIndexes(receipt: Receipt, c: Class): set<nat> {
    set l | l in receipt.logs && IsMatch(l, c) :: l.logIndex
  }

  // ------------------------------------------------------------------ least elements

  ghost function Least(s: set<nat>): (m: nat)
    requires s != {}
    ensures m in s && forall x :: x in s ==> m <= x
  {
    var x :| x in s;
    if s - {x} == {} then
      assert s == {x};
      x
    else
      var m := Least(s - {x});
      assert forall y :: y in s ==> y == x || y in s - {x};
      if x < m then x else m
  }

  // The k lowest members of a set.
  ghost function Lowest(s: set<nat>, k: nat): (r: set<nat>)
    ensures r <= s
  {
    if k == 0 then {}
    else
      var r := Lowest(s, k - 1);
      if s - r == {} then r else r + {Least(s - r)}
  }

  lemma SubsetRest(s: set<nat>, r: set<nat>)
    requires r <= s
    ensures |s - r| == |s| - |r|
  {
    assert s == r + (s - r);
  }

  lemma OneMoreSize(s: set<nat>, r: set<nat>, k: nat)
    requires r <= s && |r| == if k <= |s| then k else |s|
    ensures |if s - r == {} then r else r + {Least(s - r)}| == if k + 1 <= |s| then k + 1 else |s|
  {
    SubsetRest(s, r);
  }

  lemma {:induction false} LowestSize(s: set<nat>, k: nat)
    ensures |Lowest(s, k)| == if k <= |s| then k else |s|
  {
    if k > 0 {
      LowestSize(s, k - 1);
      OneMoreSize(s, Lowest(s, k - 1), k - 1);
    }
  }

  // Everything among the k lowest is below everything that is not.
  lemma {:induction false} LowestBelow(s: set<nat>, k: nat, x: nat, y: nat)
    requires x in Lowest(s, k) && y in s - Lowest(s, k)
    ensures x < y
  {
    var r := Lowest(s, k - 1);
    assert y in s - r;
    if x in r { LowestBelow(s, k - 1, x, y); }
  }

  // ------------------------------------------------------------------ the assignment

  ghost function Consumed(rows: seq<Erc20Transfer>, indexes: seq<nat>, txHash: string): set<nat>
    requires |rows| == |indexes|
  {
    set i | 0 <= i < |rows| && Lower(rows[i].hash) == txHash :: indexes[i]
  }

  ghost function Available(rows: seq<Erc20Transfer>, indexes: seq<nat>, receipt: Receipt, c: Class): set<nat>
    requires |rows| == |indexes|
  {
    MatchIndexes(receipt, c) - Consumed(rows, indexes, c.txHash)
  }

  // What one row adds to the assignment of the rows before it.
  ghost function AssignNext(done: seq<Erc20Transfer>, indexes: seq<nat>, row: Erc20Transfer,
                            receipts: map<string, Receipt>): Result<nat, MatchError>
    requires |done| == |indexes|
  {
    var c := ClassOf(row);
    if c.txHash !in receipts then Err(MissingReceipt(c.txHash))
    else
      var available := Available(done, indexes, receipts[c.txHash], c);
      if available == {} then Err(NoMatchingLog(c.txHash)) else Ok(Least(available))
  }

  // Rows in order; each takes the least matching index its transaction has not used.
  ghost function Assigned(rows: seq<Erc20Transfer>, receipts: map<string, Receipt>): (r: Result<seq<nat>, MatchError>)
    ensures r.Ok? ==> |r.value| == |rows|
  {
    if rows == [] then Ok([])
    else
      var n := |rows| - 1;
      var before := Assigned(rows[..n], receipts);
      if before.Err? then before
      else
        var next := AssignNext(rows[..n], before.value, rows[n], receipts);
        if next.Err? then Err(next.error) else Ok(before.value + [next.value])
  }

  function Enrich(row: Erc20Transfer, index: nat, receipt: Receipt): Erc20WithMeta {
    Erc20WithMeta(row, index, receipt.from, receipt.to)
  }

  predicate Enriched(row: Erc20Transfer, index: nat, receipts: map<string, Receipt>, out: Erc20WithMeta) {
    Lower(row.hash) in receipts && out == Enrich(row, index, receipts[Lower(row.hash)])
  }

  ghost predicate Enriches(rows: seq<Erc20Transfer>, receipts: map<string, Receipt>, indexes: seq<nat>,
                           out: seq<Erc20WithMeta>)
    requires |rows| == |indexes|
  {
    |out| == |rows| && forall i :: 0 <= i < |rows| ==> Enriched(rows[i], indexes[i], receipts, out[i])
  }

  // .sort((a, b) => a.logIndex - b.logIndex)
  function LogOrder(): (Log, Log) -> bool {
    (a: Log, b: Log) => a.logIndex < b.logIndex
  }

  ghost predicate Ascending(s: seq<Log>) {
    forall i, j :: 0 <= i < j < |s| ==> s[i].logIndex <= s[j].logIndex
  }

  ghost predicate AreCandidates(receipt: Receipt, c: Class, consumed: set<nat>, candidates: seq<Log>) {
    && Ascending(candidates)
    && forall l :: l in candidates <==> l in receipt.logs && IsCandidate(l, c) && l.logIndex !in consumed
  }

  lemma FirstMatchIsLeast(receipt: Receipt, c: Class, consumed: set<nat>, candidates: seq<Log>, i: nat)
    requires AreCandidates(receipt, c, consumed, candidates)
    requires i < |candidates| && IsMatch(candidates[i], c)
    requires forall k :: 0 <= k < i ==> !IsMatch(candidates[k], c)
    ensures candidates[i].logIndex in MatchIndexes(receipt, c) - consumed
    ensures candidates[i].logIndex == Least(MatchIndexes(receipt, c) - consumed)
  {
    assert candidates[i] in candidates;
    forall x | x in MatchIndexes(receipt, c) - consumed ensures candidates[i].logIndex <= x {
      var other :| other in receipt.logs && IsMatch(other, c) && other.logIndex == x;
      assert other in candidates;
      var k :| 0 <= k < |candidates| && candidates[k] == other;
    }
  }

  lemma NoMatchNoneAvailable(receipt: Receipt, c: Class, consumed: set<nat>, candidates: seq<Log>)
    requires AreCandidates(receipt, c, consumed, candidates)
    requires forall k :: 0 <= k < |candidates| ==> !IsMatch(candidates[k], c)
    ensures MatchIndexes(receipt, c) - consumed == {}
  {
    forall l | l in receipt.logs && IsMatch(l, c) ensures l.logIndex in consumed {
      assert l in candidates <==> l.logIndex !in consumed;
    }
  }

  function Candidates(receipt: Receipt, c: Class, consumed: set<nat>): seq<Log> {
    SortBy(LogOrder(), Filter((l: Log) => IsCandidate(l, c) && l.logIndex !in consumed, receipt.logs))
  }

  lemma CandidatesFacts(receipt: Receipt, c: Class, consumed: set<nat>)
    ensures AreCandidates(receipt, c, consumed, Candidates(receipt, c, consumed))
  {
    var unsorted := Filter((l: Log) => IsCandidate(l, c) && l.logIndex !in consumed, receipt.logs);
    FilterMembers((l: Log) => IsCandidate(l, c) && l.logIndex !in consumed, receipt.logs);
    SortOrdered(LogOrder(), unsorted);
    SortMembers(LogOrder(), unsorted);
    var s := SortBy(LogOrder(), unsorted);
    forall i, j | 0 <= i < j < |s| ensures s[i].logIndex <= s[j].logIndex {
      assert !LogOrder()(s[j], s[i]);
    }
  }

  // logindex.ts:50-66: filter, sort, first match. The result is the least available index.
  method FindMatch(receipt: Receipt, c: Class, consumed: set<nat>) returns (m: Option<nat>)
    ensures m.None? <==> MatchIndexes(receipt, c) - consumed == {}
    ensures m.Some? ==> m.value == Least(MatchIndexes(receipt, c) - consumed)
  {
    var candidates := Candidates(receipt, c, consumed);
    CandidatesFacts(receipt, c, consumed);
    for i := 0 to |candidates|
      invariant forall k :: 0 <= k < i ==> !IsMatch(candidates[k], c)
    {
      if IsMatch(candidates[i], c) {
        FirstMatchIsLeast(receipt, c, consumed, candidates, i);
        return Some(candidates[i].logIndex);
      }
    }
    NoMatchNoneAvailable(receipt, c, consumed, candidates);
    return None;
  }

  lemma AssignedStep(rows: seq<Erc20Transfer>, i: nat, receipts: map<string, Receipt>)
    requires i < |rows|
    ensures var before := Assigned(rows[..i], receipts);
            Assigned(rows[..i + 1], receipts) ==
            if before.Err? then before
            else var next := AssignNext(rows[..i], before.value, rows[i], receipts);
              if next.Err? then Err(next.error) else Ok(before.value + [next.value])
  {
    assert rows[..i + 1][..i] == rows[..i];
  }

  lemma {:induction false} AssignedErrSticks(rows: seq<Erc20Transfer>, i: nat, receipts: map<string, Receipt>)
    requires i <= |rows| && Assigned(rows[..i], receipts).Err?
    ensures Assigned(rows, receipts) == Assigned(rows[..i], receipts)
    decreases |rows| - i
  {
    if i == |rows| {
      assert rows[..i] == rows;
    } else {
      AssignedStep(rows, i, receipts);
      AssignedErrSticks(rows, i + 1, receipts);
    }
  }

  ghost predicate TracksConsumed(rows: seq<Erc20Transfer>, indexes: seq<nat>, consumedByHash: map<string, set<nat>>)
    requires |rows| == |indexes|
  {
    forall h :: (if h in consumedByHash then consumedByHash[h] else {}) == Consumed(rows, indexes, h)
  }

  lemma ConsumedPush(rows: seq<Erc20Transfer>, indexes: seq<nat>, row: Erc20Transfer, index: nat, h: string)
    requires |rows| == |indexes|
    ensures Consumed(rows + [row], indexes + [index], h) ==
            Consumed(rows, indexes, h) + (if Lower(row.hash) == h then {index} else {})
  {
    var a, b := rows + [row], indexes + [index];
    forall x | x in Consumed(a, b, h)
      ensures x in Consumed(rows, indexes, h) + (if Lower(row.hash) == h then {index} else {})
    {
      var i :| 0 <= i < |a| && Lower(a[i].hash) == h && b[i] == x;
      if i < |rows| { assert rows[i] == a[i] && indexes[i] == x; }
    }
    forall x | x in Consumed(rows, indexes, h) ensures x in Consumed(a, b, h) {
      var i :| 0 <= i < |rows| && Lower(rows[i].hash) == h && indexes[i] == x;
      assert a[i] == rows[i] && b[i] == x;
    }
    if Lower(row.hash) == h { assert a[|rows|] == row && b[|rows|] == index; }
  }

  lemma TracksPush(rows: seq<Erc20Transfer>, indexes: seq<nat>, row: Erc20Transfer, index: nat,
                   before: map<string, set<nat>>, after: map<string, set<nat>>)
    requires |rows| == |indexes| && TracksConsumed(rows, indexes, before)
    requires after == before[Lower(row.hash) := Consumed(rows, indexes, Lower(row.hash)) + {index}]
    ensures TracksConsumed(rows + [row], indexes + [index], after)
  {
    forall h ensures (if h in after then after[h] else {}) == Consumed(rows + [row], indexes + [index], h) {
      ConsumedPush(rows, indexes, row, index, h);
    }
  }

  // logindex.ts:43-69, for one row.
  method AssignRow(ghost done: seq<Erc20Transfer>, ghost indexes: seq<nat>, row: Erc20Transfer,
                   receipts: map<string, Receipt>, consumedByHash: map<string, set<nat>>)
    returns (index: Result<nat, MatchError>, after: map<string, set<nat>>)
    requires |done| == |indexes| && TracksConsumed(done, indexes, consumedByHash)
    ensures index == AssignNext(done, indexes, row, receipts)
    ensures index.Ok? ==> TracksConsumed(done + [row], indexes + [index.value], after)
  {
    var c := ClassOf(row);
    after := consumedByHash;
    if c.txHash !in receipts { return Err(MissingReceipt(c.txHash)), after; }
    var consumed := if c.txHash in consumedByHash then consumedByHash[c.txHash] else {};
    assert consumed == Consumed(done, indexes, c.txHash);
    var m := FindMatch(receipts[c.txHash], c, consumed);
    if m.None? { return Err(NoMatchingLog(c.txHash)), after; }
    after := consumedByHash[c.txHash := consumed + {m.value}];
    TracksPush(done, indexes, row, m.value, consumedByHash, after);
    index := Ok(m.value);
  }

  // The walk over the first i rows.
  ghost predicate Walked(rows: seq<Erc20Transfer>, i: nat, receipts: map<string, Receipt>, indexes: seq<nat>,
                         out: seq<Erc20WithMeta>, consumedByHash: map<string, set<nat>>)
    requires i <= |rows|
  {
    && |indexes| == i && Assigned(rows[..i], receipts) == Ok(indexes)
    && Enriches(rows[..i], receipts, indexes, out)
    && TracksConsumed(rows[..i], indexes, consumedByHash)
  }

  lemma WalkNext(rows: seq<Erc20Transfer>, i: nat, receipts: map<string, Receipt>, indexes: seq<nat>,
                 out: seq<Erc20WithMeta>, before: map<string, set<nat>>, index: nat, after: map<string, set<nat>>)
    requires i < |rows| && Walked(rows, i, receipts, indexes, out, before)
    requires AssignNext(rows[..i], indexes, rows[i], receipts) == Ok(index)
    requires TracksConsumed(rows[..i] + [rows[i]], indexes + [index], after)
    ensures Lower(rows[i].hash) in receipts
    ensures var one := Enrich(rows[i], index, receipts[Lower(rows[i].hash)]);
      Walked(rows, i + 1, receipts, indexes + [index], out + [one], after)
  {
    assert rows[..i + 1] == rows[..i] + [rows[i]];
    AssignedStep(rows, i, receipts);
  }

  // logindex.ts:35-71.
  method AssignErc20Metadata(rows: seq<Erc20Transfer>, receipts: map<string, Receipt>)
    returns (r: Result<seq<Erc20WithMeta>, MatchError>)
    ensures r.Ok? <==> Assigned(rows, receipts).Ok?
    ensures r.Ok? ==> Enriches(rows, receipts, Assigned(rows, receipts).value, r.value)
    ensures r.Err? ==> r.error == Assigned(rows, receipts).error
  {
    var consumedByHash: map<string, set<nat>> := map[];
    var out: seq<Erc20WithMeta> := [];
    ghost var indexes: seq<nat> := [];
    var i := 0;
    while i < |rows|
      invariant 0 <= i <= |rows| && Walked(rows, i, receipts, indexes, out, consumedByHash)
    {
      var index, after := AssignRow(rows[..i], indexes, rows[i], receipts, consumedByHash);
      if index.Err? {
        AssignedStep(rows, i, receipts);
        AssignedErrSticks(rows, i + 1, receipts);
        return Err(index.error);
      }
      WalkNext(rows, i, receipts, indexes, out, consumedByHash, index.value, after);
      out := out + [Enrich(rows[i], index.value, receipts[Lower(rows[i].hash)])];
      indexes := indexes + [index.value];
      consumedByHash := after;
      i := i + 1;
    }
    assert rows[..|rows|] == rows;
    return Ok(out);
  }

  // ------------------------------------------------------------------ what is assigned

  // Real receipts number their logs: no index occurs twice.
  ghost predicate LogsNumbered(receipts: map<string, Receipt>) {
    forall h :: h in receipts ==>
      forall a, b :: a in receipts[h].logs && b in receipts[h].logs && a.logIndex == b.logIndex ==> a == b
  }

  function CountClass(rows: seq<Erc20Transfer>, c: Class): nat {
    if rows == [] then 0
    else CountClass(rows[..|rows| - 1], c) + (if ClassOf(rows[|rows| - 1]) == c then 1 else 0)
  }

  // The indexes given to the rows of one class.
  ghost function Given(rows: seq<Erc20Transfer>, indexes: seq<nat>, c: Class): set<nat>
    requires |rows| == |indexes|
  {
    set i | 0 <= i < |rows| && ClassOf(rows[i]) == c :: indexes[i]
  }

  lemma ClassesDisjoint(receipts: map<string, Receipt>, h: string, c: Class, d: Class)
    requires LogsNumbered(receipts) && h in receipts && c.txHash == d.txHash == h
    ensures c == d || MatchIndexes(receipts[h], c) !! MatchIndexes(receipts[h], d)
  {
  }

  lemma GivenPush(rows: seq<Erc20Transfer>, indexes: seq<nat>, row: Erc20Transfer, index: nat, c: Class)
    requires |rows| == |indexes|
    ensures Given(rows + [row], indexes + [index], c) ==
            Given(rows, indexes, c) + (if ClassOf(row) == c then {index} else {})
  {
    var a, b := rows + [row], indexes + [index];
    forall x | x in Given(a, b, c)
      ensures x in Given(rows, indexes, c) + (if ClassOf(row) == c then {index} else {})
    {
      var i :| 0 <= i < |a| && ClassOf(a[i]) == c && b[i] == x;
      if i < |rows| { assert rows[i] == a[i] && indexes[i] == x; }
    }
    forall x | x in Given(rows, indexes, c) ensures x in Given(a, b, c) {
      var i :| 0 <= i < |rows| && ClassOf(rows[i]) == c && indexes[i] == x;
      assert a[i] == rows[i] && b[i] == x;
    }
    if ClassOf(row) == c { assert a[|rows|] == row && b[|rows|] == index; }
  }

  // Each class holds exactly its k lowest indexes, k being the number of its rows: all it was given
  // are below all it could have been given beside them.
  lemma GivenIsLowest(rows: seq<Erc20Transfer>, receipts: map<string, Receipt>, c: Class)
    requires LogsNumbered(receipts) && Assigned(rows, receipts).Ok? && c.txHash in receipts
    ensures Given(rows, Assigned(rows, receipts).value, c) ==
            Lowest(MatchIndexes(receipts[c.txHash], c), CountClass(rows, c))
    ensures CountClass(rows, c) <= |MatchIndexes(receipts[c.txHash], c)|
    ensures var given := Given(rows, Assigned(rows, receipts).value, c);
      && |given| == CountClass(rows, c) && given <= MatchIndexes(receipts[c.txHash], c)
      && forall x, y :: x in given && y in MatchIndexes(receipts[c.txHash], c) - given ==> x < y
  {
    var all, k := MatchIndexes(receipts[c.txHash], c), CountClass(rows, c);
    GivenAreLowest(rows, receipts, c);
    LowestSize(all, k);
    forall x, y | x in Lowest(all, k) && y in all - Lowest(all, k) ensures x < y { LowestBelow(all, k, x, y); }
  }

  // The k lowest of the indexes a class can take, k being the number of its rows.
  ghost predicate GivenLow(rows: seq<Erc20Transfer>, indexes: seq<nat>, all: set<nat>, c: Class)
    requires |rows| == |indexes|
  {
    Given(rows, indexes, c) == Lowest(all, CountClass(rows, c)) && CountClass(rows, c) <= |all|
  }

  lemma {:induction false} GivenAreLowest(rows: seq<Erc20Transfer>, receipts: map<string, Receipt>, c: Class)
    requires LogsNumbered(receipts) && Assigned(rows, receipts).Ok? && c.txHash in receipts
    ensures GivenLow(rows, Assigned(rows, receipts).value, MatchIndexes(receipts[c.txHash], c), c)
  {
    if rows != [] {
      var n := |rows| - 1;
      AvailableIsRest(rows[..n], receipts, c);
      GivenAreLowest(rows[..n], receipts, c);
      GivenStep(rows, receipts, c);
    }
  }

  lemma GivenStep(rows: seq<Erc20Transfer>, receipts: map<string, Receipt>, c: Class)
    requires rows != [] && Assigned(rows, receipts).Ok? && c.txHash in receipts
    requires var init, all := rows[..|rows| - 1], MatchIndexes(receipts[c.txHash], c);
      var idx := Assigned(init, receipts).value;
      GivenLow(init, idx, all, c) && Available(init, idx, receipts[c.txHash], c) == all - Given(init, idx, c)
    ensures GivenLow(rows, Assigned(rows, receipts).value, MatchIndexes(receipts[c.txHash], c), c)
  {
    var init, row := rows[..|rows| - 1], rows[|rows| - 1];
    var idx, index := AssignedLast(rows, receipts, c);
    GivenLast(rows, init, row, idx, index, MatchIndexes(receipts[c.txHash], c), c);
  }

  lemma GivenLast(rows: seq<Erc20Transfer>, init: seq<Erc20Transfer>, row: Erc20Transfer, idx: seq<nat>, index: nat,
                  all: set<nat>, c: Class)
    requires |init| == |idx| && rows == init + [row]
    requires Given(init, idx, c) == Lowest(all, CountClass(init, c)) && CountClass(init, c) <= |all|
    requires ClassOf(row) == c ==> all - Given(init, idx, c) != {} && index == Least(all - Given(init, idx, c))
    ensures Given(rows, idx + [index], c) == Lowest(all, CountClass(rows, c)) && CountClass(rows, c) <= |all|
  {
    CountPush(init, row, c);
    GivenPush(init, idx, row, index, c);
    if ClassOf(row) == c {
      LowestNext(all, CountClass(init, c));
    } else {
      assert Given(rows, idx + [index], c) == Given(init, idx, c);
    }
  }

  lemma LowestNext(all: set<nat>, k: nat)
    requires all - Lowest(all, k) != {}
    ensures Lowest(all, k + 1) == Lowest(all, k) + {Least(all - Lowest(all, k))}
    ensures k + 1 <= |all|
  {
    LowestSize(all, k);
  }

  // The last row's index, on top of the indexes of the rows before.
  lemma AssignedLast(rows: seq<Erc20Transfer>, receipts: map<string, Receipt>, c: Class)
      returns (idx: seq<nat>, index: nat)
    requires rows != [] && Assigned(rows, receipts).Ok? && c.txHash in receipts
    ensures var init, row := rows[..|rows| - 1], rows[|rows| - 1];
      && Assigned(init, receipts) == Ok(idx) && |idx| == |init| && Assigned(rows, receipts) == Ok(idx + [index])
      && (ClassOf(row) == c ==>
          && Available(init, idx, receipts[c.txHash], c) != {}
          && index == Least(Available(init, idx, receipts[c.txHash], c)))
  {
    var n := |rows| - 1;
    idx := Assigned(rows[..n], receipts).value;
    index := AssignNext(rows[..n], idx, rows[n], receipts).value;
  }

  lemma CountPush(init: seq<Erc20Transfer>, row: Erc20Transfer, c: Class)
    ensures CountClass(init + [row], c) == CountClass(init, c) + if ClassOf(row) == c then 1 else 0
  {
    assert (init + [row])[..|init|] == init;
  }

  lemma {:induction false} GivenMatches(rows: seq<Erc20Transfer>, receipts: map<string, Receipt>, i: nat)
    requires Assigned(rows, receipts).Ok? && i < |rows|
    ensures ClassOf(rows[i]).txHash in receipts
    ensures Assigned(rows, receipts).value[i] in MatchIndexes(receipts[ClassOf(rows[i]).txHash], ClassOf(rows[i]))
  {
    if i < |rows| - 1 { GivenMatches(rows[..|rows| - 1], receipts, i); }
  }

  lemma AvailableIsRest(rows: seq<Erc20Transfer>, receipts: map<string, Receipt>, c: Class)
    requires LogsNumbered(receipts) && Assigned(rows, receipts).Ok? && c.txHash in receipts
    ensures Available(rows, Assigned(rows, receipts).value, receipts[c.txHash], c)
         == MatchIndexes(receipts[c.txHash], c) - Given(rows, Assigned(rows, receipts).value, c)
  {
    var idx, all := Assigned(rows, receipts).value, MatchIndexes(receipts[c.txHash], c);
    forall x | x in all && x in Consumed(rows, idx, c.txHash) ensures x in Given(rows, idx, c) {
      var i :| 0 <= i < |rows| && Lower(rows[i].hash) == c.txHash && idx[i] == x;
      GivenMatches(rows, receipts, i);
      ClassesDisjoint(receipts, c.txHash, c, ClassOf(rows[i]));
    }
    forall x | x in Given(rows, idx, c) ensures x in Consumed(rows, idx, c.txHash) {
      var i :| 0 <= i < |rows| && ClassOf(rows[i]) == c && idx[i] == x;
      assert Lower(rows[i].hash) == c.txHash;
    }
  }

  // A matching never gives one log to two rows of a transaction.
  lemma {:induction false} IndexesDistinctPerTx(rows: seq<Erc20Transfer>, receipts: map<string, Receipt>, i: nat,
                                                j: nat)
    requires Assigned(rows, receipts).Ok? && i < j < |rows| && Lower(rows[i].hash) == Lower(rows[j].hash)
    ensures Assigned(rows, receipts).value[i] != Assigned(rows, receipts).value[j]
  {
    var n := |rows| - 1;
    if j < n {
      IndexesDistinctPerTx(rows[..n], receipts, i, j);
    } else {
      var idx := Assigned(rows[..n], receipts).value;
      assert rows[..n][i] == rows[i];
      assert idx[i] in Consumed(rows[..n], idx, Lower(rows[j].hash));
    }
  }

  ghost predicate EnoughLogs(rows: seq<Erc20Transfer>, receipts: map<string, Receipt>) {
    forall i :: 0 <= i < |rows| ==>
      var c := ClassOf(rows[i]);
      c.txHash in receipts && CountClass(rows, c) <= |MatchIndexes(receipts[c.txHash], c)|
  }

  lemma {:induction false} CountMonotone(rows: seq<Erc20Transfer>, n: nat, c: Class)
    requires n <= |rows|
    ensures CountClass(rows[..n], c) <= CountClass(rows, c)
    decreases |rows|
  {
    if n < |rows| {
      CountMonotone(rows[..|rows| - 1], n, c);
      assert rows[..|rows| - 1][..n] == rows[..n];
    } else {
      assert rows[..n] == rows;
    }
  }

  // The matching succeeds exactly when every class has a log for each of its rows.
  lemma {:induction false} SucceedsIffEnoughLogs(rows: seq<Erc20Transfer>, receipts: map<string, Receipt>)
    requires LogsNumbered(receipts)
    ensures Assigned(rows, receipts).Ok? <==> EnoughLogs(rows, receipts)
  {
    if Assigned(rows, receipts).Ok? {
      forall i | 0 <= i < |rows|
        ensures ClassOf(rows[i]).txHash in receipts
        ensures CountClass(rows, ClassOf(rows[i]))
             <= |MatchIndexes(receipts[ClassOf(rows[i]).txHash], ClassOf(rows[i]))|
      {
        GivenMatches(rows, receipts, i);
        GivenIsLowest(rows, receipts, ClassOf(rows[i]));
      }
    }
    if EnoughLogs(rows, receipts) && rows != [] {
      var n := |rows| - 1;
      var init, c := rows[..n], ClassOf(rows[n]);
      forall i | 0 <= i < n
        ensures ClassOf(init[i]).txHash in receipts
        ensures CountClass(init, ClassOf(init[i]))
             <= |MatchIndexes(receipts[ClassOf(init[i]).txHash], ClassOf(init[i]))|
      {
        assert init[i] == rows[i];
        CountMonotone(rows, n, ClassOf(rows[i]));
      }
      SucceedsIffEnoughLogs(init, receipts);
      AvailableIsRest(init, receipts, c);
      GivenIsLowest(init, receipts, c);
      var all, given := MatchIndexes(receipts[c.txHash], c), Given(init, Assigned(init, receipts).value, c);
      LowestSize(all, CountClass(init, c));
      assert all * given == given;
      assert |all - given| == |all| - |given| > 0;
    }
  }

  // The indexes a class gets depend only on how many rows of that class were fetched: not on row
  // order, not on the other rows of the page, so not on whose address the page was fetched for.
  lemma GivenDependsOnCount(rows1: seq<Erc20Transfer>, rows2: seq<Erc20Transfer>,
                            receipts1: map<string, Receipt>, receipts2: map<string, Receipt>, c: Class)
    requires LogsNumbered(receipts1) && LogsNumbered(receipts2)
    requires Assigned(rows1, receipts1).Ok? && Assigned(rows2, receipts2).Ok?
    requires c.txHash in receipts1 && c.txHash in receipts2 && receipts1[c.txHash] == receipts2[c.txHash]
    requires CountClass(rows1, c) == CountClass(rows2, c)
    ensures Given(rows1, Assigned(rows1, receipts1).value, c) == Given(rows2, Assigned(rows2, receipts2).value, c)
  {
    GivenIsLowest(rows1, receipts1, c);
    GivenIsLowest(rows2, receipts2, c);
  }
}
