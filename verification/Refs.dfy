// Citations: the events behind every bucket of an aggregate (packages/ledger/src/backing.ts), and
// what of them a tool cites (packages/mcp-tools/src/refs.ts).

module Refs {
  import opened Sequences
  import opened Money

  datatype EventRef = EventRef(chainId: int, txHash: string, logIndex: int)

  datatype Backing = Backing(refs: seq<EventRef>, totalCount: nat, capped: bool)

  // packages/ledger/src/types.ts:12 and refs.ts:9.
  const EVENT_REF_CAP: nat := 64
  const REF_CAP: nat := 64

  // ------------------------------------------------------------------ buckets

  // An event as the backing sees it: its ref, and the buckets it backs.
  datatype Source = Source(ref: EventRef, keys: seq<string>)

  datatype Pair = Pair(key: string, ref: EventRef)

  function PairsOf(s: Source): seq<Pair> { Map((k: string) => Pair(k, s.ref), s.keys) }

  // Every time an event backs a bucket.
  function Pairs(events: seq<Source>): seq<Pair> {
    if events == [] then [] else Pairs(events[..|events| - 1]) + PairsOf(events[|events| - 1])
  }

  function OfKey(k: string): Pair -> bool { (p: Pair) => p.key == k }

  function Hits(pairs: seq<Pair>, k: string): seq<EventRef> { Map((p: Pair) => p.ref, Filter(OfKey(k), pairs)) }

  function BackingOf(hits: seq<EventRef>): Backing {
    Backing(Take(hits, EVENT_REF_CAP), |hits|, |hits| > EVENT_REF_CAP)
  }

  // Every bucket that something backs, with the first refs, the exact total, and whether more exist.
  ghost predicate IsBucketing(out: map<string, Backing>, pairs: seq<Pair>) {
    forall k :: (k in out <==> Hits(pairs, k) != []) && (k in out ==> out[k] == BackingOf(Hits(pairs, k)))
  }

  function Count(b: Backing, ref: EventRef): Backing {
    if |b.refs| < EVENT_REF_CAP then Backing(b.refs + [ref], b.totalCount + 1, b.capped)
    else Backing(b.refs, b.totalCount + 1, true)
  }

  lemma HitsPush(pairs: seq<Pair>, p: Pair, k: string)
    ensures Hits(pairs + [p], k) == Hits(pairs, k) + if p.key == k then [p.ref] else []
  {
    FilterPush(OfKey(k), pairs, p);
  }

  lemma CountIsBacking(hits: seq<EventRef>, ref: EventRef)
    ensures Count(BackingOf(hits), ref) == BackingOf(hits + [ref])
  {
    if |hits| > EVENT_REF_CAP { assert (hits + [ref])[..EVENT_REF_CAP] == hits[..EVENT_REF_CAP]; }
    if |hits| == EVENT_REF_CAP { assert (hits + [ref])[..EVENT_REF_CAP] == hits; }
  }

  // backing.ts:24-30, for one event and one of its buckets.
  method CountPair(out: map<string, Backing>, ghost pairs: seq<Pair>, p: Pair) returns (out': map<string, Backing>)
    requires IsBucketing(out, pairs)
    ensures IsBucketing(out', pairs + [p])
  {
    var b := if p.key in out then out[p.key] else Backing([], 0, false);
    out' := out[p.key := Count(b, p.ref)];
    assert b == BackingOf(Hits(pairs, p.key));
    forall k
      ensures k in out' <==> Hits(pairs + [p], k) != []
      ensures k in out' ==> out'[k] == BackingOf(Hits(pairs + [p], k))
    {
      HitsPush(pairs, p, k);
      if k == p.key { CountIsBacking(Hits(pairs, k), p.ref); }
    }
  }

  // backing.ts:17-33.
  method BucketBacking(events: seq<Source>) returns (out: map<string, Backing>)
    ensures IsBucketing(out, Pairs(events))
    ensures forall k :: k in out ==>
      && out[k].totalCount == |Hits(Pairs(events), k)| && out[k].refs <= Hits(Pairs(events), k)
      && |out[k].refs| == (if out[k].totalCount < 64 then out[k].totalCount else 64)
      && (out[k].capped <==> out[k].totalCount > |out[k].refs|)
  {
    out := map[];
    for i := 0 to |events|
      invariant IsBucketing(out, Pairs(events[..i]))
    {
      var e := events[i];
      ghost var before := Pairs(events[..i]);
      assert before + PairsOf(e)[..0] == before;
      for j := 0 to |e.keys|
        invariant IsBucketing(out, before + PairsOf(e)[..j])
      {
        out := CountPair(out, before + PairsOf(e)[..j], Pair(e.keys[j], e.ref));
        assert PairsOf(e)[..j + 1] == PairsOf(e)[..j] + [Pair(e.keys[j], e.ref)];
        ConcatAssociates(before, PairsOf(e)[..j], [Pair(e.keys[j], e.ref)]);
      }
      assert PairsOf(e)[..|e.keys|] == PairsOf(e);
      assert events[..i + 1][..i] == events[..i];
    }
    assert events[..|events|] == events;
  }

  // ------------------------------------------------------------------ key strings

  function KeyString(r: EventRef): string { StringOf(r.chainId) + ("|" + (r.txHash + ("|" + StringOf(r.logIndex)))) }

  predicate NoBar(s: string) { forall i :: 0 <= i < |s| ==> s[i] != '|' }

  lemma StringOfNoBar(n: int)
    ensures NoBar(StringOf(n))
  {
  }

  lemma StringOfInjective(m: int, n: int)
    requires StringOf(m) == StringOf(n)
    ensures m == n
  {
    WholeParts(m);
    WholeParts(n);
    ParseOfFormat(m, 0);
    ParseOfFormat(n, 0);
  }

  // A separator that the first part does not contain marks its end.
  lemma FirstBar(a: string, b: string, x: string, y: string)
    requires NoBar(a) && NoBar(b) && a + ("|" + x) == b + ("|" + y)
    ensures a == b && x == y
  {
    var s := a + ("|" + x);
    IndexOfFirst(s, '|', |a|);
    IndexOfFirst(b + ("|" + y), '|', |b|);
    assert a == s[..|a|] == b && s[|a| + 1..] == x;
    assert (b + ("|" + y))[|b| + 1..] == y;
  }

  function LastBarAt(s: string): nat {
    if s == "" then 0 else if s[|s| - 1] == '|' then |s| - 1 else LastBarAt(s[..|s| - 1])
  }

  lemma {:induction false} LastBarIs(a: string, x: string)
    requires NoBar(x)
    ensures LastBarAt(a + ("|" + x)) == |a|
  {
    var s := a + ("|" + x);
    if x != "" {
      var init := x[..|x| - 1];
      assert s[..|s| - 1] == a + ("|" + init) && s[|s| - 1] == x[|x| - 1];
      LastBarIs(a, init);
    }
  }

  // The same from the back.
  lemma LastBar(a: string, b: string, x: string, y: string)
    requires NoBar(x) && NoBar(y) && a + ("|" + x) == b + ("|" + y)
    ensures a == b && x == y
  {
    var s := a + ("|" + x);
    LastBarIs(a, x);
    LastBarIs(b, y);
    assert a == s[..|a|] == b && s[|a| + 1..] == x;
    assert (b + ("|" + y))[|b| + 1..] == y;
  }

  // The key string names its ref, whatever the transaction hash looks like.
  lemma KeyStringInjective(r: EventRef, s: EventRef)
    requires KeyString(r) == KeyString(s)
    ensures r == s
  {
    StringOfNoBar(r.chainId);
    StringOfNoBar(s.chainId);
    FirstBar(StringOf(r.chainId), StringOf(s.chainId), r.txHash + ("|" + StringOf(r.logIndex)),
             s.txHash + ("|" + StringOf(s.logIndex)));
    StringOfNoBar(r.logIndex);
    StringOfNoBar(s.logIndex);
    LastBar(r.txHash, s.txHash, StringOf(r.logIndex), StringOf(s.logIndex));
    StringOfInjective(r.chainId, s.chainId);
    StringOfInjective(r.logIndex, s.logIndex);
  }

  // ------------------------------------------------------------------ what is cited

  ghost predicate SameRefs(a: seq<EventRef>, b: seq<EventRef>) { forall r :: r in a <==> r in b }

  ghost predicate Injective(key: EventRef -> string) { forall r, s :: key(r) == key(s) ==> r == s }

  lemma KeyStringsDiffer()
    ensures Injective(r => KeyString(r))
  {
    forall r: EventRef, s: EventRef | KeyString(r) == KeyString(s) ensures r == s { KeyStringInjective(r, s); }
  }

  // refs.ts:31-41, for any key that names its ref.
  method DedupeBy(refs: seq<EventRef>, key: EventRef -> string) returns (out: seq<EventRef>)
    requires Injective(key)
    ensures Distinct(out) && SameRefs(out, refs)
  {
    var seen: set<string> := {};
    out := [];
    for i := 0 to |refs|
      invariant Distinct(out) && SameRefs(out, refs[..i])
      invariant forall r :: r in out <==> key(r) in seen
    {
      assert refs[..i + 1] == refs[..i] + [refs[i]];
      if key(refs[i]) in seen { continue; }
      seen := seen + {key(refs[i])};
      out := out + [refs[i]];
    }
    assert refs[..|refs|] == refs;
  }

  method DedupeRefs(refs: seq<EventRef>) returns (out: seq<EventRef>)
    ensures Distinct(out) && SameRefs(out, refs)
  {
    KeyStringsDiffer();
    out := DedupeBy(refs, r => KeyString(r));
  }

  datatype Cited = Inline(refs: seq<EventRef>)
    | Summary(count: nat, sample: seq<EventRef>, drilldown: map<string, string>)

  function TotalOf(backings: seq<Backing>): nat {
    if backings == [] then 0 else TotalOf(backings[..|backings| - 1]) + backings[|backings| - 1].totalCount
  }

  function RefsOf(backings: seq<Backing>): seq<EventRef> {
    if backings == [] then [] else RefsOf(backings[..|backings| - 1]) + backings[|backings| - 1].refs
  }

  // refs.ts:24-29: a drilldown replays the whole set, not the caller's page.
  function StripPaging(args: map<string, string>): map<string, string> { args - {"cursor", "limit"} }

  // refs.ts:44-64.
  method SelectRefs(backings: seq<Backing>, args: map<string, string>) returns (r: Cited)
    ensures r.Inline? ==> TotalOf(backings) <= 64 && Distinct(r.refs) && SameRefs(r.refs, RefsOf(backings))
    ensures r.Summary? ==> r.count == TotalOf(backings) && |r.sample| <= 10 && Distinct(r.sample)
                           && (forall x :: x in r.sample ==> x in RefsOf(backings))
    ensures r.Summary? ==>
      && "cursor" !in r.drilldown && "limit" !in r.drilldown
      && (forall k :: k != "cursor" && k != "limit" ==> (k in r.drilldown <==> k in args))
      && (forall k :: k in r.drilldown ==> r.drilldown[k] == args[k])
    ensures TotalOf(backings) > 64 ==> r.Summary?
    ensures TotalOf(backings) <= 64 && |RefsOf(backings)| <= 64 ==> r.Inline?
  {
    var allRefs: seq<EventRef> := [];
    var totalCount := 0;
    for i := 0 to |backings|
      invariant allRefs == RefsOf(backings[..i]) && totalCount == TotalOf(backings[..i])
    {
      assert backings[..i + 1][..i] == backings[..i];
      totalCount := totalCount + backings[i].totalCount;
      allRefs := allRefs + backings[i].refs;
    }
    assert backings[..|backings|] == backings;
    var deduped := DedupeRefs(allRefs);
    DistinctFits(deduped, allRefs);
    if totalCount <= REF_CAP && |deduped| <= REF_CAP { return Inline(deduped); }
    return Summary(totalCount, Take(deduped, 10), StripPaging(args));
  }

  // ------------------------------------------------------------------ together

  // The backings of a bucketing, each bucket once.
  ghost predicate Enumerates(backings: seq<Backing>, keys: seq<string>, out: map<string, Backing>) {
    && Distinct(keys) && |backings| == |keys| && (forall k :: k in keys <==> k in out)
    && forall i :: 0 <= i < |keys| ==> keys[i] in out && backings[i] == out[keys[i]]
  }

  function TotalHits(pairs: seq<Pair>, keys: seq<string>): nat {
    if keys == [] then 0 else TotalHits(pairs, keys[..|keys| - 1]) + |Hits(pairs, keys[|keys| - 1])|
  }

  lemma {:induction false} TotalHitsPush(pairs: seq<Pair>, p: Pair, keys: seq<string>)
    requires Distinct(keys)
    ensures TotalHits(pairs + [p], keys) == TotalHits(pairs, keys) + if p.key in keys then 1 else 0
  {
    if keys != [] {
      var init, last := keys[..|keys| - 1], keys[|keys| - 1];
      TotalHitsPush(pairs, p, init);
      HitsPush(pairs, p, last);
      InPush(init, last, keys, p.key);
    }
  }

  lemma InPush(init: seq<string>, last: string, keys: seq<string>, k: string)
    requires Distinct(keys) && keys == init + [last]
    ensures k in keys <==> k in init || k == last
    ensures k == last ==> k !in init
  {
    assert forall i :: 0 <= i < |init| ==> init[i] == keys[i] != keys[|init|];
  }

  lemma {:induction false} NoHits(keys: seq<string>)
    ensures TotalHits([], keys) == 0
  {
    if keys != [] { NoHits(keys[..|keys| - 1]); }
  }

  // Every pair is in one bucket.
  lemma {:induction false} BucketsPartition(pairs: seq<Pair>, keys: seq<string>)
    requires Distinct(keys) && forall p :: p in pairs ==> p.key in keys
    ensures TotalHits(pairs, keys) == |pairs|
  {
    if pairs == [] {
      NoHits(keys);
    } else {
      var n := |pairs| - 1;
      assert pairs == pairs[..n] + [pairs[n]];
      assert pairs[n] in pairs;
      BucketsPartition(pairs[..n], keys);
      TotalHitsPush(pairs[..n], pairs[n], keys);
    }
  }

  ghost predicate BucketsOf(backings: seq<Backing>, keys: seq<string>, pairs: seq<Pair>) {
    |backings| == |keys| && forall i :: 0 <= i < |keys| ==> backings[i] == BackingOf(Hits(pairs, keys[i]))
  }

  lemma {:induction false} TotalOfBuckets(backings: seq<Backing>, keys: seq<string>, pairs: seq<Pair>)
    requires BucketsOf(backings, keys, pairs)
    ensures TotalOf(backings) == TotalHits(pairs, keys)
    ensures |RefsOf(backings)| <= TotalOf(backings)
  {
    if keys != [] { TotalOfBuckets(backings[..|keys| - 1], keys[..|keys| - 1], pairs); }
  }

  ghost predicate InBucket(pairs: seq<Pair>, keys: seq<string>, r: EventRef) {
    exists i :: 0 <= i < |keys| && r in Hits(pairs, keys[i])
  }

  lemma InBucketPush(pairs: seq<Pair>, keys: seq<string>, k: string, r: EventRef)
    ensures InBucket(pairs, keys + [k], r) <==> InBucket(pairs, keys, r) || r in Hits(pairs, k)
  {
    var all := keys + [k];
    assert all[|keys|] == k;
    if i :| 0 <= i < |keys| && r in Hits(pairs, keys[i]) { assert r in Hits(pairs, all[i]); }
  }

  // While the total fits the cap, no bucket has left a ref out.
  lemma {:induction false} NoneCapped(backings: seq<Backing>, keys: seq<string>, pairs: seq<Pair>, r: EventRef)
    requires BucketsOf(backings, keys, pairs) && TotalOf(backings) <= EVENT_REF_CAP
    ensures r in RefsOf(backings) <==> InBucket(pairs, keys, r)
  {
    if keys != [] {
      var n := |keys| - 1;
      NoneCapped(backings[..n], keys[..n], pairs, r);
      InBucketPush(pairs, keys[..n], keys[n], r);
      assert keys == keys[..n] + [keys[n]];
    }
  }

  lemma HitsMembers(pairs: seq<Pair>, k: string, r: EventRef)
    ensures r in Hits(pairs, k) <==> Pair(k, r) in pairs
  {
    FilterMembers(OfKey(k), pairs);
    var kept := Filter(OfKey(k), pairs);
    if r in Hits(pairs, k) {
      var i :| 0 <= i < |kept| && kept[i].ref == r;
      assert kept[i] in kept;
    }
    if Pair(k, r) in pairs {
      assert Pair(k, r) in kept;
      var i :| 0 <= i < |kept| && kept[i] == Pair(k, r);
      assert Hits(pairs, k)[i] == r;
    }
  }

  lemma {:induction false} PairsMembers(events: seq<Source>, p: Pair)
    ensures p in Pairs(events) <==> exists e :: e in events && e.ref == p.ref && p.key in e.keys
  {
    if events != [] {
      var n := |events| - 1;
      PairsMembers(events[..n], p);
      assert events == events[..n] + [events[n]];
      if p in PairsOf(events[n]) {
        var i :| 0 <= i < |events[n].keys| && PairsOf(events[n])[i] == p;
        assert events[n] in events;
      }
      if events[n].ref == p.ref && p.key in events[n].keys {
        var i :| 0 <= i < |events[n].keys| && events[n].keys[i] == p.key;
        assert PairsOf(events[n])[i] == p;
      }
    }
  }

  ghost predicate Backs(events: seq<Source>, r: EventRef) { exists e :: e in events && e.ref == r && e.keys != [] }

  // Inline citations are complete though each bucket was capped and an event may back several: they
  // are, without repeats, exactly the refs of the events behind any bucket. They are inlined exactly
  // when events back buckets at most 64 times; otherwise the count is how often they do.
  lemma CitationsComplete(events: seq<Source>, out: map<string, Backing>, backings: seq<Backing>, keys: seq<string>,
                          cited: seq<EventRef>)
    requires IsBucketing(out, Pairs(events)) && Enumerates(backings, keys, out)
    ensures TotalOf(backings) == |Pairs(events)| && |RefsOf(backings)| <= TotalOf(backings)
    ensures TotalOf(backings) <= REF_CAP && SameRefs(cited, RefsOf(backings)) ==>
            forall r :: r in cited <==> Backs(events, r)
  {
    var pairs := Pairs(events);
    TotalOfBuckets(backings, keys, pairs);
    forall p | p in pairs ensures p.key in keys { HitsMembers(pairs, p.key, p.ref); }
    BucketsPartition(pairs, keys);
    if TotalOf(backings) <= REF_CAP && SameRefs(cited, RefsOf(backings)) {
      forall r ensures r in cited <==> Backs(events, r) {
        NoneCapped(backings, keys, pairs, r);
        CitedBacks(events, keys, r);
      }
    }
  }

  lemma CitedBacks(events: seq<Source>, keys: seq<string>, r: EventRef)
    requires forall p :: p in Pairs(events) ==> p.key in keys
    ensures InBucket(Pairs(events), keys, r) <==> Backs(events, r)
  {
    if i :| 0 <= i < |keys| && r in Hits(Pairs(events), keys[i]) {
      HitsMembers(Pairs(events), keys[i], r);
      PairsMembers(events, Pair(keys[i], r));
    }
    if e :| e in events && e.ref == r && e.keys != [] {
      var p := Pair(e.keys[0], r);
      PairsMembers(events, p);
      var i :| 0 <= i < |keys| && keys[i] == p.key;
      HitsMembers(Pairs(events), keys[i], r);
    }
  }
}
