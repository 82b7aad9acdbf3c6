// Keyset paging over the append-only events (packages/ledger/src/list-events.ts, cursor.ts).

module ListEvents {
  import opened Text
  import opened Types
  import opened Sequences
  import opened Money

  // ------------------------------------------------------------------ rows and positions

  // A stored event joined with its token. Ids are unique and never change.
  datatype Row = Row(chainId: int, id: nat, event: Event, tokenAddress: Option<string>, decimals: nat, verified: bool)

  // cursor.ts:9-14.
  datatype Position = Position(chainId: int, block: int, logIndex: int, id: int)

  function PosOf(r: Row): Position { Position(r.chainId, r.event.block, r.event.key.logIndex, r.id) }

  // Row comparison as SQL's `(a, b, c, d) < (a', b', c', d')`.
  predicate Before(a: Position, b: Position) {
    || a.chainId < b.chainId
    || (a.chainId == b.chainId && (a.block < b.block
        || (a.block == b.block && (a.logIndex < b.logIndex
            || (a.logIndex == b.logIndex && a.id < b.id)))))
  }

  function RowOrder(): (Row, Row) -> bool { (x: Row, y: Row) => Before(PosOf(x), PosOf(y)) }

  function IsAfter(c: Position): Row -> bool { (r: Row) => Before(c, PosOf(r)) }

  lemma RowOrderComparator()
    ensures Comparator(RowOrder())
  {
  }

  // ------------------------------------------------------------------ the filter

  datatype TokenRef = TokenRef(chainId: int, address: Option<string>)

  // The instants of a period, end excluded.
  datatype Params = Params(
    addresses: seq<string>, chainIds: set<int>, period: Option<(int, int)>, kinds: set<EventKind>,
    counterparty: Option<string>, tokens: set<TokenRef>, includeUnverified: bool, minAmount: Option<string>,
    limit: Option<int>, cursor: Option<Position>)

  function Addresses(p: Params): seq<string> { Map((a: string) => Lower(a), p.addresses) }

  predicate AtLeast(r: Row, min: Parts)
    requires WellFormed(min)
  {
    r.event.amount * Pow10(|min.frac|) >= Value(min.whole + min.frac) * Pow10(r.decimals)
  }

  // list-events.ts:35-58, without the cursor.
  predicate Passes(p: Params, r: Row)
    requires ValidMin(p)
  {
    && (r.event.from in Addresses(p) || r.event.to in Addresses(p))
    && (p.period.Some? ==> p.period.value.0 <= r.event.time < p.period.value.1)
    && (p.kinds != {} ==> r.event.kind in p.kinds)
    && (p.counterparty.Some? && p.counterparty.value != ""
        ==> r.event.from == Lower(p.counterparty.value) || r.event.to == Lower(p.counterparty.value))
    && (p.tokens != {} ==> exists t :: t in p.tokens && NamesToken(t, r))
    && (p.includeUnverified || r.verified)
    && (p.minAmount.Some? ==> MinHolds(p.minAmount.value, r))
    && (p.chainIds != {} ==> r.chainId in p.chainIds)
  }

  predicate NamesToken(t: TokenRef, r: Row) {
    t.chainId == r.chainId && r.tokenAddress == if t.address.None? then None else Some(Lower(t.address.value))
  }

  predicate MinHolds(min: string, r: Row)
    requires IsMin(min)
  {
    ShowMatch(min);
    AtLeast(r, Match(min).value)
  }

  // The shape check /^\d+(\.\d+)?$/ of list-events.ts:31.
  predicate IsMin(s: string) { Match(s).Some? && !Match(s).value.neg }

  predicate ValidMin(p: Params) { p.minAmount.Some? ==> IsMin(p.minAmount.value) }

  function Keeps(p: Params): Row -> bool
    requires ValidMin(p)
  {
    (r: Row) => Passes(p, r)
  }

  // list-events.ts:25.
  function Limit(p: Params): (n: nat)
    ensures 1 <= n <= 200
    ensures p.limit.None? ==> n == 50
    ensures p.limit.Some? && 1 <= p.limit.value <= 200 ==> n == p.limit.value
  {
    var limit := if p.limit.Some? then p.limit.value else 50;
    var atLeast := if limit > 1 then limit else 1;
    if atLeast < 200 then atLeast else 200
  }

  // ------------------------------------------------------------------ what the filter lets through

  // A row is wanted by each filter on its own; an empty one wants every row.
  ghost predicate Wanted(p: Params, r: Row) {
    && (exists a :: a in p.addresses && (r.event.from == Lower(a) || r.event.to == Lower(a)))
    && WantedTime(p, r) && WantedCounterparty(p, r) && WantedToken(p, r) && WantedAmount(p, r)
    && (p.kinds == {} || r.event.kind in p.kinds)
    && (p.chainIds == {} || r.chainId in p.chainIds)
    && (r.verified || p.includeUnverified)
  }

  // From the start of the period to before its end.
  predicate WantedTime(p: Params, r: Row) {
    match p.period
    case None => true
    case Some((start, end)) => start <= r.event.time && !(end <= r.event.time)
  }

  predicate WantedCounterparty(p: Params, r: Row) {
    match p.counterparty
    case None => true
    case Some(address) => address == "" || r.event.from == Lower(address) || r.event.to == Lower(address)
  }

  // One of the named tokens: of the chain, by its contract, or the native one where no contract is named.
  ghost predicate WantedToken(p: Params, r: Row) {
    p.tokens == {}
    || exists t :: t in p.tokens && t.chainId == r.chainId && WantedContract(t, r)
  }

  predicate WantedContract(t: TokenRef, r: Row) {
    match t.address
    case None => r.tokenAddress.None?
    case Some(address) => r.tokenAddress == Some(Lower(address))
  }

  // The amount reaches the minimum, in base units of any scale that holds both.
  ghost predicate WantedAmount(p: Params, r: Row) {
    p.minAmount.Some? ==>
      forall n: nat :: r.decimals <= n && ParseUnits(p.minAmount.value, n).Ok? ==>
        r.event.amount * Pow10(n - r.decimals) >= ParseUnits(p.minAmount.value, n).value
  }

  lemma SameOrder(a: int, b: int, c: nat)
    requires c >= 1
    ensures a >= b <==> a * c >= b * c
  {
    if a >= b { Scaled(b, a, c); } else { Scaled(a + 1, b, c); }
  }

  lemma Scaled(a: int, b: int, c: nat)
    requires a <= b
    ensures a * c <= b * c
  {
    assert 0 <= (b - a) * c;
  }

  // Two comparisons at different scales.
  lemma AcrossScales(amount: int, v: nat, f: nat, d: nat, nd: nat, nf: nat)
    requires f >= 1 && d >= 1 && nd >= 1 && nf >= 1 && nd * d == f * nf
    ensures amount * f >= v * d <==> amount * nd >= v * nf
  {
    SameOrder(amount * f, v * d, nf);
    SameOrder(amount * nd, v * nf, d);
    assert amount * f * nf == amount * (f * nf) == amount * (nd * d) == amount * nd * d;
    assert v * d * nf == v * nf * d;
  }

  lemma MinMeans(min: string, r: Row, n: nat)
    requires IsMin(min) && r.decimals <= n && ParseUnits(min, n).Ok?
    ensures MinHolds(min, r) <==> r.event.amount * Pow10(n - r.decimals) >= ParseUnits(min, n).value
  {
    ShowMatch(min);
    var p := Match(min).value;
    var f, d := |p.frac|, r.decimals;
    var v := Value(p.whole + p.frac);
    assert p.whole + p.frac + Zeros(0) == p.whole + p.frac;
    MagnitudeAtScale(p, f, n);
    Pow10Add(n - d, d);
    Pow10Add(f, n - f);
    AcrossScales(r.event.amount, v, Pow10(f), Pow10(d), Pow10(n - d), Pow10(n - f));
  }

  // Where the token has decimals enough, a row reaches a minimum exactly when its amount is at least the
  // minimum in base units.
  lemma MinInBaseUnits(min: string, r: Row)
    requires IsMin(min) && ParseUnits(min, r.decimals).Ok?
    ensures MinHolds(min, r) <==> r.event.amount >= ParseUnits(min, r.decimals).value
  {
    MinMeans(min, r, r.decimals);
    assert Pow10(0) == 1;
  }

  lemma InScope(p: Params, r: Row)
    ensures (r.event.from in Addresses(p) || r.event.to in Addresses(p)) <==>
            exists a :: a in p.addresses && (r.event.from == Lower(a) || r.event.to == Lower(a))
  {
    if a :| a in p.addresses && (r.event.from == Lower(a) || r.event.to == Lower(a)) {
      var i :| 0 <= i < |p.addresses| && p.addresses[i] == a;
      assert Addresses(p)[i] == Lower(a);
    }
    forall x | x in Addresses(p) ensures exists a :: a in p.addresses && x == Lower(a) {
      var i :| 0 <= i < |p.addresses| && Addresses(p)[i] == x;
      assert p.addresses[i] in p.addresses;
    }
  }

  lemma NamedToken(p: Params, r: Row)
    ensures (exists t :: t in p.tokens && NamesToken(t, r)) <==>
            exists t :: t in p.tokens && t.chainId == r.chainId && WantedContract(t, r)
  {
  }

  lemma AmountWanted(p: Params, r: Row)
    requires ValidMin(p) && p.minAmount.Some?
    ensures MinHolds(p.minAmount.value, r) <==> WantedAmount(p, r)
  {
    var min := p.minAmount.value;
    var f := |Match(min).value.frac|;
    var n := if f <= r.decimals then r.decimals else f;
    MinMeans(min, r, n);
    forall m: nat | r.decimals <= m && ParseUnits(min, m).Ok?
      ensures MinHolds(min, r) <==> r.event.amount * Pow10(m - r.decimals) >= ParseUnits(min, m).value
    {
      MinMeans(min, r, m);
    }
  }

  // The filter keeps exactly the wanted rows.
  lemma PassesMeans(p: Params, r: Row)
    requires ValidMin(p)
    ensures Passes(p, r) <==> Wanted(p, r)
  {
    InScope(p, r);
    NamedToken(p, r);
    if p.minAmount.Some? { AmountWanted(p, r); }
  }

  // ------------------------------------------------------------------ one page

  function AfterCursor(cursor: Option<Position>): Row -> bool {
    (r: Row) => cursor.None? || Before(cursor.value, PosOf(r))
  }

  // The rows a query finds, in order.
  function Found(table: seq<Row>, keep: Row -> bool, cursor: Option<Position>): seq<Row> {
    SortBy(RowOrder(), Filter(AfterCursor(cursor), Filter(keep, table)))
  }

  datatype Page = Page(rows: seq<Row>, next: Option<Position>)

  // The first rows after the cursor, and where to go on when there are more.
  function PageOf(found: seq<Row>, limit: nat): Page
    requires limit >= 1
  {
    Page(Take(found, limit), if |found| > limit then Some(PosOf(found[limit - 1])) else None)
  }

  datatype Direction = Inward | Outward | Within

  datatype Item = Item(row: Row, direction: Direction)

  datatype ListResult = ListResult(events: seq<Item>, totalCount: Option<nat>, nextCursor: Option<Position>)

  // list-events.ts:106-135.
  function ItemOf(scope: set<string>): Row -> Item {
    (r: Row) => Item(r, if r.event.from in scope && r.event.to in scope then Within
                        else if r.event.to in scope then Inward else Outward)
  }

  // The direction of a kept row says which of its endpoints are in scope.
  lemma DirectionMeans(p: Params, r: Row, scope: set<string>)
    requires ValidMin(p) && Passes(p, r) && scope == ToSet(Addresses(p))
    ensures match ItemOf(scope)(r).direction
      case Within => r.event.from in scope && r.event.to in scope
      case Inward => r.event.from !in scope && r.event.to in scope
      case Outward => r.event.from in scope && r.event.to !in scope
  {
  }

  // list-events.ts:20-144. None is the RangeError of a malformed minimum; an empty scope is answered
  // before the minimum is looked at.
  method List(table: seq<Row>, p: Params) returns (r: Option<ListResult>)
    ensures p.addresses == [] ==> r == Some(ListResult([], if p.cursor.None? then Some(0) else None, None))
    ensures p.addresses != [] ==> (r.None? <==> !ValidMin(p))
    ensures p.addresses != [] && ValidMin(p) ==>
      var page := PageOf(Found(table, Keeps(p), p.cursor), Limit(p));
      && r.value.events == Map(ItemOf(ToSet(Addresses(p))), page.rows)
      && r.value.nextCursor == page.next
      && r.value.totalCount == if p.cursor.None? then Some(|Filter(Keeps(p), table)|) else None
  {
    var addresses := Addresses(p);
    if |addresses| == 0 { return Some(ListResult([], if p.cursor.None? then Some(0) else None, None)); }
    var limit := Limit(p);
    if p.minAmount.Some? && !IsMin(p.minAmount.value) { return None; }
    var rows := Take(Found(table, Keeps(p), p.cursor), limit + 1);
    var totalCount := None;
    if p.cursor.None? { totalCount := Some(|Filter(Keeps(p), table)|); }
    var page := Take(rows, limit);
    var events := Map(ItemOf(ToSet(addresses)), page);
    var nextCursor := None;
    if |rows| > limit { nextCursor := Some(PosOf(page[|page| - 1])); }
    return Some(ListResult(events, totalCount, nextCursor));
  }

  // ------------------------------------------------------------------ sorting and filtering commute

  lemma {:induction false} InsertFilter<T(!new)>(less: (T, T) -> bool, p: T -> bool, x: T, s: seq<T>)
    requires Comparator(less) && Ordered(less, s)
    ensures Filter(p, InsertBy(less, x, s)) == if p(x) then InsertBy(less, x, Filter(p, s)) else Filter(p, s)
  {
    if s == [] {
    } else if less(x, s[0]) {
      assert ([x] + s)[1..] == s;
      InsertBeforeAll(less, p, x, s);
    } else {
      var r := InsertBy(less, x, s[1..]);
      assert ([s[0]] + r)[1..] == r;
      InsertFilter(less, p, x, s[1..]);
      FilterHead(p, s);
    }
  }

  lemma InsertBeforeAll<T(!new)>(less: (T, T) -> bool, p: T -> bool, x: T, s: seq<T>)
    requires Comparator(less) && Ordered(less, s) && s != [] && less(x, s[0])
    ensures InsertBy(less, x, Filter(p, s)) == [x] + Filter(p, s)
  {
    var kept := Filter(p, s);
    if kept != [] {
      FilterMembers(p, s);
      assert kept[0] in kept;
      var i :| 0 <= i < |s| && s[i] == kept[0];
      assert i > 0 ==> !less(s[i], s[0]);
      assert less(x, kept[0]);
    }
  }

  lemma {:induction false} SortFilter<T(!new)>(less: (T, T) -> bool, p: T -> bool, s: seq<T>)
    requires Comparator(less)
    ensures SortBy(less, Filter(p, s)) == Filter(p, SortBy(less, s))
  {
    if s != [] {
      var n := |s| - 1;
      var init, kept := s[..n], Filter(p, s[..n]);
      assert s == init + [s[n]];
      FilterPush(p, init, s[n]);
      SortFilter(less, p, init);
      SortOrdered(less, init);
      InsertFilter(less, p, s[n], SortBy(less, init));
      if p(s[n]) { assert (kept + [s[n]])[..|kept|] == kept; }
    }
  }

  // ------------------------------------------------------------------ pages of an unchanging table

  ghost predicate UniqueIds(table: seq<Row>) {
    forall i, j :: 0 <= i < j < |table| ==> table[i].id != table[j].id
  }

  ghost predicate Ascending(s: seq<Row>) {
    forall i, j :: 0 <= i < j < |s| ==> Before(PosOf(s[i]), PosOf(s[j]))
  }

  // Ascending rows stand by chain, in a chain by block, in a block by log index, and then by id.
  lemma AscendingMeans(s: seq<Row>, i: nat, j: nat)
    requires Ascending(s) && i < j < |s|
    ensures s[i].chainId <= s[j].chainId
    ensures s[i].chainId == s[j].chainId ==> s[i].event.block <= s[j].event.block
    ensures s[i].chainId == s[j].chainId && s[i].event.block == s[j].event.block ==>
      s[i].event.key.logIndex < s[j].event.key.logIndex
      || (s[i].event.key.logIndex == s[j].event.key.logIndex && s[i].id < s[j].id)
  {
  }

  ghost function InOrder(table: seq<Row>, keep: Row -> bool): seq<Row> {
    SortBy(RowOrder(), Filter(keep, table))
  }

  lemma {:induction false} UniqueIdsKept(table: seq<Row>, keep: Row -> bool)
    requires UniqueIds(table)
    ensures UniqueIds(Filter(keep, table))
    decreases |table|
  {
    if table != [] {
      UniqueIdsKept(table[1..], keep);
      FilterMembers(keep, table[1..]);
      var rest := Filter(keep, table[1..]);
      forall r | r in rest ensures r.id != table[0].id {
        var i :| 0 <= i < |table[1..]| && table[1..][i] == r;
      }
    }
  }

  lemma {:induction false} UniqueIdsPermuted(s: seq<Row>, t: seq<Row>)
    requires UniqueIds(s) && multiset(s) == multiset(t)
    ensures UniqueIds(t)
  {
    PermutationFacts(s, t);
    DistinctCounts(s);
    DistinctCounts(t);
    assert Distinct(s);
    forall i, j | 0 <= i < j < |t| ensures t[i].id != t[j].id {
      assert t[i] in t && t[j] in t;
      var a :| 0 <= a < |s| && s[a] == t[i];
      var b :| 0 <= b < |s| && s[b] == t[j];
      assert t[i] != t[j];
    }
  }

  lemma FoundAscends(table: seq<Row>, keep: Row -> bool, cursor: Option<Position>)
    requires UniqueIds(table)
    ensures Ascending(Found(table, keep, cursor))
  {
    var hits := Filter(AfterCursor(cursor), Filter(keep, table));
    UniqueIdsKept(table, keep);
    UniqueIdsKept(Filter(keep, table), AfterCursor(cursor));
    RowOrderComparator();
    SortOrdered(RowOrder(), hits);
    var s := SortBy(RowOrder(), hits);
    UniqueIdsPermuted(hits, s);
    forall i, j | 0 <= i < j < |s| ensures Before(PosOf(s[i]), PosOf(s[j])) {
      assert !RowOrder()(s[j], s[i]);
    }
  }

  lemma FoundMembers(table: seq<Row>, keep: Row -> bool, cursor: Option<Position>, r: Row)
    ensures r in Found(table, keep, cursor) <==> r in table && keep(r) && AfterCursor(cursor)(r)
  {
    var hits := Filter(AfterCursor(cursor), Filter(keep, table));
    PermutationFacts(hits, SortBy(RowOrder(), hits));
    FilterMembers(keep, table);
    FilterMembers(AfterCursor(cursor), Filter(keep, table));
  }

  lemma {:induction false} SuffixAfter(s: seq<Row>, i: nat)
    requires Ascending(s) && i < |s|
    ensures Filter(IsAfter(PosOf(s[i])), s) == s[i + 1..]
  {
    var p := IsAfter(PosOf(s[i]));
    if i == 0 {
      assert !p(s[0]);
      FilterAllOrNone(p, s[1..], true);
    } else {
      assert !p(s[0]);
      SuffixAfter(s[1..], i - 1);
      assert s[1..][i - 1] == s[i] && s[1..][i..] == s[i + 1..];
    }
  }

  // A query after the i-th row of the whole listing finds the rest of it.
  lemma FoundIsSuffix(table: seq<Row>, keep: Row -> bool, i: nat)
    requires UniqueIds(table) && i < |InOrder(table, keep)|
    ensures Found(table, keep, Some(PosOf(InOrder(table, keep)[i]))) == InOrder(table, keep)[i + 1..]
  {
    var all := InOrder(table, keep);
    var c := PosOf(all[i]);
    FoundFromStart(table, keep);
    FoundAscends(table, keep, None);
    SuffixAfter(all, i);
    RowOrderComparator();
    SortFilter(RowOrder(), IsAfter(c), Filter(keep, table));
    SameFilter(AfterCursor(Some(c)), IsAfter(c), Filter(keep, table));
  }

  lemma FoundFromStart(table: seq<Row>, keep: Row -> bool)
    ensures Found(table, keep, None) == InOrder(table, keep)
  {
    FilterAllOrNone(AfterCursor(None), Filter(keep, table), true);
  }

  lemma {:induction false} SameFilter<T(!new)>(p: T -> bool, q: T -> bool, s: seq<T>)
    requires forall x :: p(x) == q(x)
    ensures Filter(p, s) == Filter(q, s)
  {
    if s != [] { SameFilter(p, q, s[1..]); }
  }

  // ------------------------------------------------------------------ following the cursors

  // What the n-th request of a listing gets, from a cursor.
  type Query = (nat, Option<Position>) -> Page

  datatype Listing = Listing(rows: seq<Row>, done: bool)

  // The rows of up to k pages, and whether the last of them had no cursor to follow.
  ghost function Follow(query: Query, n: nat, cursor: Option<Position>, k: nat): Listing
    decreases k
  {
    if k == 0 then Listing([], false)
    else
      var page := query(n, cursor);
      if page.next.None? then Listing(page.rows, true)
      else
        var rest := Follow(query, n + 1, page.next, k - 1);
        Listing(page.rows + rest.rows, rest.done)
  }

  ghost function QueryOf(tables: nat -> seq<Row>, keep: Row -> bool, limit: nat): Query
    requires limit >= 1
  {
    (n: nat, cursor: Option<Position>) => PageOf(Found(tables(n), keep, cursor), limit)
  }

  // Pages of one list: the page at an offset is its next `limit` rows.
  ghost predicate PagesOf(query: Query, all: seq<Row>, limit: nat)
    requires limit >= 1
  {
    && (forall n: nat :: query(n, None) == PageOf(all, limit))
    && (forall n: nat, i: nat :: i < |all| ==> PageAfter(query, all, limit, n, i))
  }

  ghost predicate PageAfter(query: Query, all: seq<Row>, limit: nat, n: nat, i: nat)
    requires limit >= 1 && i < |all|
  {
    query(n, Some(PosOf(all[i]))) == PageOf(all[i + 1..], limit)
  }

  lemma {:induction false} FollowFrom(query: Query, all: seq<Row>, limit: nat, n: nat, cursor: Option<Position>,
                                      i: nat, k: nat)
    requires limit >= 1 && PagesOf(query, all, limit) && i <= |all| < i + k
    requires query(n, cursor) == PageOf(all[i..], limit)
    ensures Follow(query, n, cursor, k) == Listing(all[i..], true)
    decreases k
  {
    if |all| - i > limit {
      var next := i + limit;
      CutAt(all, i, limit);
      assert PageAfter(query, all, limit, n + 1, next - 1);
      FollowFrom(query, all, limit, n + 1, Some(PosOf(all[next - 1])), next, k - 1);
      FollowStep(query, n, cursor, k, Page(all[i..][..limit], Some(PosOf(all[next - 1]))), all[next..]);
    }
  }

  lemma CutAt(all: seq<Row>, i: nat, limit: nat)
    requires limit >= 1 && i + limit < |all|
    ensures all[i..][limit - 1] == all[i + limit - 1]
    ensures all[i..][..limit] + all[i + limit..] == all[i..]
  {
  }

  lemma FollowStep(query: Query, n: nat, cursor: Option<Position>, k: nat, page: Page, rest: seq<Row>)
    requires k > 0 && query(n, cursor) == page && page.next.Some?
    requires Follow(query, n + 1, page.next, k - 1) == Listing(rest, true)
    ensures Follow(query, n, cursor, k) == Listing(page.rows + rest, true)
  {
  }

  lemma QueryFrom(table: seq<Row>, keep: Row -> bool, limit: nat, n: nat, i: nat)
    requires limit >= 1 && UniqueIds(table) && i < |InOrder(table, keep)|
    ensures PageAfter(QueryOf((n: nat) => table, keep, limit), InOrder(table, keep), limit, n, i)
  {
    FoundIsSuffix(table, keep, i);
  }

  lemma QueryStart(table: seq<Row>, keep: Row -> bool, limit: nat, n: nat)
    requires limit >= 1
    ensures QueryOf((n: nat) => table, keep, limit)(n, None) == PageOf(InOrder(table, keep), limit)
  {
    FoundFromStart(table, keep);
  }

  lemma QueryPages(table: seq<Row>, keep: Row -> bool, limit: nat)
    requires limit >= 1 && UniqueIds(table)
    ensures PagesOf(QueryOf((n: nat) => table, keep, limit), InOrder(table, keep), limit)
  {
    var query, all := QueryOf((n: nat) => table, keep, limit), InOrder(table, keep);
    forall n: nat ensures query(n, None) == PageOf(all, limit) { QueryStart(table, keep, limit, n); }
    forall n: nat, i: nat | i < |all| ensures PageAfter(query, all, limit, n, i) {
      QueryFrom(table, keep, limit, n, i);
    }
  }

  // Following the cursors until there is none lists exactly the rows that pass the filter, in order,
  // and they are as many as the first page's count said. Every page but the last takes at least one
  // row, so no more requests are made than there are rows, and one.
  lemma PagesConcatenate(table: seq<Row>, keep: Row -> bool, limit: nat, k: nat)
    requires limit >= 1 && UniqueIds(table) && k > |Filter(keep, table)|
    ensures Follow(QueryOf((n: nat) => table, keep, limit), 0, None, k) ==
            Listing(SortBy(RowOrder(), Filter(keep, table)), true)
    ensures |SortBy(RowOrder(), Filter(keep, table))| == |Filter(keep, table)|
  {
    QueryPages(table, keep, limit);
    var all := InOrder(table, keep);
    assert all[0..] == all;
    FollowFrom(QueryOf((n: nat) => table, keep, limit), all, limit, 0, None, 0, k);
  }

  // ------------------------------------------------------------------ rows appended between pages

  // An append-only table over time.
  ghost predicate AppendOnly(tables: nat -> seq<Row>) {
    (forall n: nat :: UniqueIds(tables(n))) && (forall n: nat, r :: r in tables(n) ==> r in tables(n + 1))
  }

  // One page: ascending rows after its cursor, and up to the next cursor it misses none.
  lemma OnePage(table: seq<Row>, keep: Row -> bool, limit: nat, cursor: Option<Position>, r: Row)
    requires limit >= 1 && UniqueIds(table)
    ensures var page := PageOf(Found(table, keep, cursor), limit);
      && Ascending(page.rows)
      && (r in page.rows ==>
          r in table && keep(r) && AfterCursor(cursor)(r) && (page.next.Some? ==> !Before(page.next.value, PosOf(r))))
      && (r in table && keep(r) && AfterCursor(cursor)(r)
          ==> r in page.rows || (page.next.Some? && Before(page.next.value, PosOf(r))))
      && (page.next.Some? ==> page.rows != [] && (cursor.Some? ==> Before(cursor.value, page.next.value)))
  {
    var found := Found(table, keep, cursor);
    FoundAscends(table, keep, cursor);
    FoundMembers(table, keep, cursor, r);
    if |found| > limit {
      FoundMembers(table, keep, cursor, found[limit - 1]);
      assert found[limit - 1] in found;
    }
    if r in found {
      var i :| 0 <= i < |found| && found[i] == r;
      if |found| > limit && i < limit { assert found[..limit][i] == r; }
    }
  }

  lemma AscendingConcat(a: seq<Row>, b: seq<Row>, c: Position)
    requires Ascending(a) && Ascending(b)
    requires (forall r :: r in a ==> !Before(c, PosOf(r))) && (forall r :: r in b ==> Before(c, PosOf(r)))
    ensures Ascending(a + b)
  {
    var s := a + b;
    forall i, j | 0 <= i < j < |s| ensures Before(PosOf(s[i]), PosOf(s[j])) {
      if i < |a| <= j { assert s[i] in a && s[j] in b; }
    }
  }

  // What OnePage says of every request.
  ghost predicate Paged(query: Query, tables: nat -> seq<Row>, keep: Row -> bool) {
    forall n: nat, cursor: Option<Position>, r: Row :: Covers(query(n, cursor), tables(n), keep, cursor, r)
  }

  ghost predicate Covers(page: Page, table: seq<Row>, keep: Row -> bool, cursor: Option<Position>, r: Row) {
    && Ascending(page.rows)
    && (r in page.rows
        ==> r in table && keep(r) && AfterCursor(cursor)(r) && (page.next.Some? ==> !Before(page.next.value, PosOf(r))))
    && (r in table && keep(r) && AfterCursor(cursor)(r)
        ==> r in page.rows || (page.next.Some? && Before(page.next.value, PosOf(r))))
    && (page.next.Some? ==> page.rows != [] && (cursor.Some? ==> Before(cursor.value, page.next.value)))
  }

  lemma QueryPaged(tables: nat -> seq<Row>, keep: Row -> bool, limit: nat)
    requires limit >= 1 && AppendOnly(tables)
    ensures Paged(QueryOf(tables, keep, limit), tables, keep)
  {
    forall n: nat, cursor: Option<Position>, r: Row
      ensures Covers(QueryOf(tables, keep, limit)(n, cursor), tables(n), keep, cursor, r)
    {
      OnePage(tables(n), keep, limit, cursor, r);
    }
  }

  // The rows come in ascending order - so none twice - and lie after the cursor.
  lemma {:induction false} FollowAscends(query: Query, tables: nat -> seq<Row>, keep: Row -> bool, n: nat,
                                         cursor: Option<Position>, k: nat)
    requires Paged(query, tables, keep)
    ensures Ascending(Follow(query, n, cursor, k).rows)
    ensures forall r :: r in Follow(query, n, cursor, k).rows ==> keep(r) && AfterCursor(cursor)(r)
    decreases k
  {
    if k > 0 {
      var page := query(n, cursor);
      forall r: Row
        ensures Ascending(page.rows) && (page.next.Some? && cursor.Some? ==> Before(cursor.value, page.next.value))
        ensures r in page.rows
                ==> keep(r) && AfterCursor(cursor)(r) && (page.next.Some? ==> !Before(page.next.value, PosOf(r)))
      {
        assert Covers(page, tables(n), keep, cursor, r);
      }
      if page.next.Some? {
        FollowAscends(query, tables, keep, n + 1, page.next, k - 1);
        AscendingConcat(page.rows, Follow(query, n + 1, page.next, k - 1).rows, page.next.value);
      }
    }
  }

  // A row that was there when the listing began is in it by the time it ends.
  lemma {:induction false} NoneMissed(query: Query, tables: nat -> seq<Row>, keep: Row -> bool, n: nat,
                                      cursor: Option<Position>, k: nat, r: Row)
    requires Paged(query, tables, keep) && AppendOnly(tables) && r in tables(n) && keep(r) && AfterCursor(cursor)(r)
    requires Follow(query, n, cursor, k).done
    ensures r in Follow(query, n, cursor, k).rows
    decreases k
  {
    var page := query(n, cursor);
    assert Covers(page, tables(n), keep, cursor, r);
    if page.next.Some? && r !in page.rows {
      NoneMissed(query, tables, keep, n + 1, page.next, k - 1, r);
    }
  }

  lemma {:induction false} UnfinishedIsLong(query: Query, n: nat, cursor: Option<Position>, k: nat)
    requires forall m: nat, c: Option<Position> :: query(m, c).next.Some? ==> query(m, c).rows != []
    requires !Follow(query, n, cursor, k).done
    ensures |Follow(query, n, cursor, k).rows| >= k
    decreases k
  {
    if k > 0 { UnfinishedIsLong(query, n + 1, query(n, cursor).next, k - 1); }
  }

  lemma {:induction false} AllFromTables(query: Query, tables: nat -> seq<Row>, keep: Row -> bool, n: nat,
                                         cursor: Option<Position>, k: nat, final: seq<Row>)
    requires Paged(query, tables, keep) && forall m: nat, r :: r in tables(m) ==> r in final
    ensures forall r :: r in Follow(query, n, cursor, k).rows ==> r in final
    decreases k
  {
    if k > 0 {
      var page := query(n, cursor);
      forall r | r in page.rows ensures r in final {
        assert Covers(page, tables(n), keep, cursor, r);
      }
      if page.next.Some? { AllFromTables(query, tables, keep, n + 1, page.next, k - 1, final); }
    }
  }

  lemma AscendingDistinct(s: seq<Row>)
    requires Ascending(s)
    ensures Distinct(s)
  {
  }

  // While rows are appended between the pages, a listing still returns no row twice, returns every
  // row that was there at its first page, and ends once rows stop coming.
  lemma PagesUnderAppends(tables: nat -> seq<Row>, keep: Row -> bool, limit: nat, k: nat, final: seq<Row>, r: Row)
    requires limit >= 1 && AppendOnly(tables) && forall m: nat, x :: x in tables(m) ==> x in final
    ensures var listing := Follow(QueryOf(tables, keep, limit), 0, None, k);
      && Distinct(listing.rows) && Ascending(listing.rows)
      && (listing.done && r in tables(0) && keep(r) ==> r in listing.rows)
      && (r in listing.rows ==> r in final && keep(r))
      && (k > |final| ==> listing.done)
  {
    QueryPaged(tables, keep, limit);
    FollowedListing(QueryOf(tables, keep, limit), tables, keep, k, final, r);
  }

  lemma FollowedListing(query: Query, tables: nat -> seq<Row>, keep: Row -> bool, k: nat, final: seq<Row>, r: Row)
    requires Paged(query, tables, keep) && AppendOnly(tables) && forall m: nat, x :: x in tables(m) ==> x in final
    ensures var listing := Follow(query, 0, None, k);
      && Distinct(listing.rows) && Ascending(listing.rows)
      && (listing.done && r in tables(0) && keep(r) ==> r in listing.rows)
      && (r in listing.rows ==> r in final && keep(r))
      && (k > |final| ==> listing.done)
  {
    var listing := Follow(query, 0, None, k);
    FollowAscends(query, tables, keep, 0, None, k);
    AscendingDistinct(listing.rows);
    AllFromTables(query, tables, keep, 0, None, k, final);
    if listing.done && r in tables(0) && keep(r) { NoneMissed(query, tables, keep, 0, None, k, r); }
    if !listing.done {
      forall m: nat, c: Option<Position> ensures query(m, c).next.Some? ==> query(m, c).rows != [] {
        assert Covers(query(m, c), tables(m), keep, c, r);
      }
      UnfinishedIsLong(query, 0, None, k);
      DistinctFits(listing.rows, final);
    }
  }
}
