// Valuation with pinned provenance (packages/pricing/src/value.ts) and the choice of an exchange
// rate (packages/pricing/src/fx.ts). Decimals are reals.

module Pricing {
  import opened Text

  // ------------------------------------------------------------------ the rate of a day

  datatype FxRow = FxRow(id: int, rateDate: string, base: string, quote: string, rate: real, source: string)

  datatype FxResolved = FxResolved(row: FxRow, shifted: bool)

  // fx.ts:17-21.
  function SourceRank(source: string): int {
    if source == "manual" then 0 else if source == "ecb" then 1 else 2
  }

  // fx.ts:31-37.
  predicate IsBetterSameDate(a: FxRow, b: FxRow) {
    var ra, rb := SourceRank(a.source), SourceRank(b.source);
    if ra != rb then ra < rb
    else if ra == 2 && a.source != b.source then CompareStr(a.source, b.source) < 0
    else a.id > b.id
  }

  // The later date wins, then the better source.
  predicate Beats(a: FxRow, b: FxRow) {
    CompareStr(a.rateDate, b.rateDate) > 0 || (a.rateDate == b.rateDate && IsBetterSameDate(a, b))
  }

  predicate IsEligible(r: FxRow, date: string) { CompareStr(r.rateDate, date) <= 0 }

  ghost predicate UniqueRates(rows: seq<FxRow>) {
    forall i, j :: 0 <= i < j < |rows| ==> rows[i].id != rows[j].id
  }

  // A strict total order on rows of different ids.
  lemma BeatsTotal(a: FxRow, b: FxRow)
    ensures !(Beats(a, b) && Beats(b, a))
    ensures a.id != b.id ==> Beats(a, b) || Beats(b, a)
  {
    CompareStrLaws(a.rateDate, b.rateDate);
    CompareStrLaws(a.source, b.source);
  }

  lemma BetterTransitive(a: FxRow, b: FxRow, c: FxRow)
    requires IsBetterSameDate(a, b) && IsBetterSameDate(b, c)
    ensures IsBetterSameDate(a, c)
  {
    CompareStrLaws(a.source, b.source);
    CompareStrLaws(b.source, c.source);
    CompareStrLaws(a.source, c.source);
    if CompareStr(a.source, b.source) <= 0 && CompareStr(b.source, c.source) <= 0 {
      CompareStrTransitive(a.source, b.source, c.source);
    }
  }

  lemma BeatsTransitive(a: FxRow, b: FxRow, c: FxRow)
    requires Beats(a, b) && Beats(b, c)
    ensures Beats(a, c)
  {
    CompareStrLaws(a.rateDate, b.rateDate);
    CompareStrLaws(b.rateDate, c.rateDate);
    CompareStrLaws(a.rateDate, c.rateDate);
    CompareStrTransitive(c.rateDate, b.rateDate, a.rateDate);
    if a.rateDate == b.rateDate == c.rateDate { BetterTransitive(a, b, c); }
  }

  // The row that beats every other row not after the date.
  ghost predicate IsBest(rows: seq<FxRow>, date: string, b: FxRow) {
    b in rows && IsEligible(b, date) && forall r :: r in rows && IsEligible(r, date) ==> r == b || Beats(b, r)
  }

  // fx.ts:46-54.
  method PickLatestRate(rows: seq<FxRow>, date: string) returns (r: Option<FxResolved>)
    requires UniqueRates(rows)
    ensures r.None? <==> forall x :: x in rows ==> !IsEligible(x, date)
    ensures r.Some? ==> IsBest(rows, date, r.value.row) && (r.value.shifted <==> r.value.row.rateDate != date)
  {
    var best: Option<FxRow> := None;
    for i := 0 to |rows|
      invariant best.None? ==> forall x :: x in rows[..i] ==> !IsEligible(x, date)
      invariant best.Some? ==> IsBest(rows[..i], date, best.value)
    {
      var r := rows[i];
      assert rows[..i + 1] == rows[..i] + [r];
      if CompareStr(r.rateDate, date) > 0 { continue; }
      if best.Some? { BestStep(rows, i, date, best.value); }
      CompareStrLaws(r.rateDate, date);
      if best.None? || CompareStr(r.rateDate, best.value.rateDate) > 0 { best := Some(r); continue; }
      if r.rateDate == best.value.rateDate && IsBetterSameDate(r, best.value) { best := Some(r); }
    }
    assert rows[..|rows|] == rows;
    return if best.None? then None else Some(FxResolved(best.value, best.value.rateDate != date));
  }

  lemma BestStep(rows: seq<FxRow>, i: nat, date: string, b: FxRow)
    requires UniqueRates(rows) && i < |rows| && IsBest(rows[..i], date, b) && IsEligible(rows[i], date)
    ensures IsBest(rows[..i + 1], date, if Beats(rows[i], b) then rows[i] else b)
  {
    var r := rows[i];
    assert rows[..i + 1] == rows[..i] + [r];
    var k :| 0 <= k < i && rows[k] == b;
    BeatsTotal(r, b);
    if Beats(r, b) {
      forall x | x in rows[..i] && IsEligible(x, date) ensures Beats(r, x) {
        if x != b { BeatsTransitive(r, b, x); }
      }
    }
  }

  // The choice depends on which rows there are, not on the order they are scanned in.
  lemma BestIndependentOfOrder(rows: seq<FxRow>, other: seq<FxRow>, date: string, a: FxRow, b: FxRow)
    requires (forall r :: r in rows <==> r in other) && IsBest(rows, date, a) && IsBest(other, date, b)
    ensures a == b
  {
    BeatsTotal(a, b);
  }

  // The best row is not after the date and none is nearer to it; on its own date a manual row comes before
  // one of the bank, and that before any other, others by name, and of one source the last row.
  lemma BestMeans(rows: seq<FxRow>, date: string, b: FxRow, r: FxRow)
    requires IsBest(rows, date, b) && r in rows && CompareStr(r.rateDate, date) <= 0
    ensures CompareStr(b.rateDate, date) <= 0 && CompareStr(r.rateDate, b.rateDate) <= 0
    ensures r.rateDate == b.rateDate ==>
      && (r.source == "manual" ==> b.source == "manual")
      && (r.source == "ecb" ==> b.source == "manual" || b.source == "ecb")
      && (b.source == "manual" || b.source == "ecb" || CompareStr(b.source, r.source) <= 0)
      && (r.source == b.source ==> r.id <= b.id)
  {
    CompareStrLaws(b.rateDate, r.rateDate);
    CompareStrLaws(b.source, r.source);
    if r != b { assert Beats(b, r); }
  }

  // The rate a date resolves to.
  ghost function RateAt(rows: seq<FxRow>, date: string): Option<FxResolved> {
    if b :| IsBest(rows, date, b) then Some(FxResolved(b, b.rateDate != date)) else None
  }

  lemma RateAtIs(rows: seq<FxRow>, date: string, r: Option<FxResolved>)
    requires r.None? <==> forall x :: x in rows ==> !IsEligible(x, date)
    requires r.Some? ==> IsBest(rows, date, r.value.row) && (r.value.shifted <==> r.value.row.rateDate != date)
    ensures r == RateAt(rows, date)
  {
    if r.Some? && RateAt(rows, date).Some? {
      BestIndependentOfOrder(rows, rows, date, r.value.row, RateAt(rows, date).value.row);
    }
  }

  // ------------------------------------------------------------------ one value

  datatype Need = Need(tokenId: nat, date: string, amount: real, symbol: Option<string>)

  datatype Snapshot = Snapshot(id: int, tokenId: nat, priceDate: string, currency: string, price: real, source: string)

  datatype PriceRef = PriceRef(snapshotId: int, token: string, date: string, currency: string, source: string,
                               price: real)

  datatype FxRef = FxRef(fxRateId: int, date: string, base: string, quote: string, rate: real, source: string)

  datatype Warning = PriceMissing(tokenId: nat, date: string, reason: string)
    | FxDateShifted(rateDate: string, target: string)

  // value.ts:35-37.
  predicate IsSupportedFxPair(from: string, to: string) {
    (from == "USD" && to == "EUR") || (from == "EUR" && to == "USD")
  }

  datatype ValuedOne = ValuedOne(value: real, priceRef: PriceRef, fxRef: Option<FxRef>, warning: Option<Warning>)

  function PriceRefOf(need: Need, s: Snapshot): PriceRef {
    var token := if need.symbol.Some? then need.symbol.value else Digits(need.tokenId);
    PriceRef(s.id, token, s.priceDate, s.currency, s.source, s.price)
  }

  function FxRefOf(r: FxRow): FxRef { FxRef(r.id, r.rateDate, r.base, r.quote, r.rate, r.source) }

  // The stated product of amount, price and, when converted, rate: rates are dollars for a euro.
  function Fiat(need: Need, s: Snapshot, target: string, fx: Option<FxResolved>): real
    requires fx.Some? ==> fx.value.row.rate > 0.0
  {
    var own := need.amount * s.price;
    if s.currency == target || fx.None? then own
    else if s.currency == "USD" && target == "EUR" then own / fx.value.row.rate
    else own * fx.value.row.rate
  }

  // Rates are dollars for a euro, whichever way a value goes.
  lemma FiatConverts(need: Need, s: Snapshot, target: string, fx: FxResolved)
    requires IsSupportedFxPair(s.currency, target) && fx.row.rate > 0.0
    ensures target == "EUR" ==> Fiat(need, s, target, Some(fx)) * fx.row.rate == need.amount * s.price
    ensures target == "USD" ==> Fiat(need, s, target, Some(fx)) == need.amount * s.price * fx.row.rate
    ensures Fiat(need, s, s.currency, Some(fx)) == need.amount * s.price
  {
  }

  // Whether a snapshot can be used for a target, given the rate of its day.
  predicate Convertible(s: Snapshot, target: string, fx: Option<FxResolved>) {
    s.currency == target || (IsSupportedFxPair(s.currency, target) && fx.Some?)
  }

  // value.ts:47-84. None stands for its two errors.
  method ValueOne(need: Need, s: Snapshot, target: string, fx: Option<FxResolved>) returns (r: Option<ValuedOne>)
    requires fx.Some? ==> fx.value.row.rate > 0.0
    ensures r.Some? <==> Convertible(s, target, fx)
    ensures r.Some? ==>
      && r.value.value == Fiat(need, s, target, fx) && r.value.priceRef == PriceRefOf(need, s)
      && r.value.fxRef == (if s.currency == target then None else Some(FxRefOf(fx.value.row)))
      && r.value.warning ==
         if s.currency != target && fx.value.shifted then Some(FxDateShifted(fx.value.row.rateDate, need.date))
         else None
  {
    var value := need.amount * s.price;
    var fxRef := None;
    var warning := None;
    if s.currency != target {
      if !IsSupportedFxPair(s.currency, target) { return None; }
      if fx.None? { return None; }
      var rate := fx.value.row.rate;
      value := if s.currency == "USD" && target == "EUR" then value / rate else value * rate;
      fxRef := Some(FxRefOf(fx.value.row));
      if fx.value.shifted { warning := Some(FxDateShifted(fx.value.row.rateDate, need.date)); }
    }
    return Some(ValuedOne(value, PriceRefOf(need, s), fxRef, warning));
  }

  // ------------------------------------------------------------------ a batch

  datatype ValuedNeed = ValuedNeed(tokenId: nat, date: string, fiatValue: Option<real>)

  // The winning snapshot per token and date, as resolvePrices returns them.
  type Prices = map<(nat, string), Snapshot>

  ghost predicate PricesPinned(prices: Prices) {
    forall a, b :: a in prices && b in prices && prices[a].id == prices[b].id ==> prices[a] == prices[b]
  }

  ghost predicate PositiveRates(rows: seq<FxRow>) { forall r :: r in rows ==> r.rate > 0.0 }

  type Rates = map<string, FxResolved>

  function RateFor(rates: Rates, date: string): Option<FxResolved> { if date in rates then Some(rates[date]) else None }

  function SnapshotFor(prices: Prices, need: Need): Option<Snapshot> {
    if (need.tokenId, need.date) in prices then Some(prices[(need.tokenId, need.date)]) else None
  }

  // What backs a need: its snapshot, and the rate when it is converted.
  function Backing(need: Need, prices: Prices, rates: Rates, target: string): Option<(Snapshot, Option<FxResolved>)> {
    var s := SnapshotFor(prices, need);
    if s.None? || !Convertible(s.value, target, RateFor(rates, need.date)) then None
    else Some((s.value, if s.value.currency == target then None else RateFor(rates, need.date)))
  }

  ghost predicate RatesPositive(rates: Rates) { forall d :: d in rates ==> rates[d].row.rate > 0.0 }

  datatype WarnKey = MissingKey(tokenId: nat, date: string) | ShiftedKey(date: string)

  datatype Valuation = Valuation(values: seq<ValuedNeed>, priceRefs: map<int, PriceRef>, fxRefs: map<int, FxRef>,
                                 warnings: seq<Warning>)

  function WarnKeyOf(w: Warning): WarnKey {
    match w
    case PriceMissing(tokenId, date, _) => MissingKey(tokenId, date)
    case FxDateShifted(_, target) => ShiftedKey(target)
  }

  // The warning a need is worth, if any.
  function WarningFor(need: Need, prices: Prices, rates: Rates, target: string): Option<WarnKey> {
    var b := Backing(need, prices, rates, target);
    if b.None? then Some(MissingKey(need.tokenId, need.date))
    else if b.value.1.Some? && b.value.1.value.shifted then Some(ShiftedKey(need.date))
    else None
  }

  // A price ref says what its snapshot says.
  predicate CitesPrice(p: PriceRef, s: Snapshot) {
    p.snapshotId == s.id && p.date == s.priceDate && p.currency == s.currency && p.source == s.source
    && p.price == s.price
  }

  // A rate ref says what its row says.
  predicate CitesFx(f: FxRef, r: FxRow) {
    f.fxRateId == r.id && f.date == r.rateDate && f.base == r.base && f.quote == r.quote && f.rate == r.rate
    && f.source == r.source
  }

  // What a price ref calls its token, for a need of it.
  predicate Labels(p: PriceRef, need: Need) {
    match need.symbol
    case Some(symbol) => p.token == symbol
    case None => p.token == Digits(need.tokenId)
  }

  // The value of a need, and the refs that pin it in a result.
  ghost predicate Pinned(v: Valuation, value: ValuedNeed, need: Need, prices: Prices, rates: Rates, target: string)
    requires RatesPositive(rates)
  {
    && value.tokenId == need.tokenId && value.date == need.date
    && match Backing(need, prices, rates, target)
       case None => value.fiatValue.None?
       case Some((s, fx)) =>
         && value.fiatValue == Some(Fiat(need, s, target, fx))
         && s.id in v.priceRefs && CitesPrice(v.priceRefs[s.id], s)
         && (fx.Some? ==> fx.value.row.id in v.fxRefs && CitesFx(v.fxRefs[fx.value.row.id], fx.value.row))
  }

  ghost predicate AllPinned(v: Valuation, needs: seq<Need>, prices: Prices, rates: Rates, target: string)
    requires RatesPositive(rates)
  {
    |v.values| == |needs| && forall i :: 0 <= i < |needs| ==> Pinned(v, v.values[i], needs[i], prices, rates, target)
  }

  predicate CitesSnapshot(need: Need, prices: Prices, rates: Rates, target: string, id: int) {
    var b := Backing(need, prices, rates, target);
    b.Some? && b.value.0.id == id
  }

  predicate CitesRate(need: Need, prices: Prices, rates: Rates, target: string, id: int) {
    var b := Backing(need, prices, rates, target);
    b.Some? && b.value.1.Some? && b.value.1.value.row.id == id
  }

  ghost predicate AnyCitesSnapshot(needs: seq<Need>, prices: Prices, rates: Rates, target: string, p: PriceRef) {
    exists i :: 0 <= i < |needs| && CitesSnapshot(needs[i], prices, rates, target, p.snapshotId) && Labels(p, needs[i])
  }

  ghost predicate AnyCitesRate(needs: seq<Need>, prices: Prices, rates: Rates, target: string, id: int) {
    exists i :: 0 <= i < |needs| && CitesRate(needs[i], prices, rates, target, id)
  }

  // Every ref is one that some need is behind.
  ghost predicate NoStrayRefs(v: Valuation, needs: seq<Need>, prices: Prices, rates: Rates, target: string) {
    && (forall id ::
        id in v.priceRefs ==>
          v.priceRefs[id].snapshotId == id && AnyCitesSnapshot(needs, prices, rates, target, v.priceRefs[id]))
    && (forall id :: id in v.fxRefs ==> v.fxRefs[id].fxRateId == id && AnyCitesRate(needs, prices, rates, target, id))
  }

  ghost predicate Says(warnings: seq<Warning>, k: WarnKey) {
    exists i :: 0 <= i < |warnings| && WarnKeyOf(warnings[i]) == k
  }

  ghost predicate AnyWarns(needs: seq<Need>, prices: Prices, rates: Rates, target: string, k: WarnKey) {
    exists i :: 0 <= i < |needs| && WarningFor(needs[i], prices, rates, target) == Some(k)
  }

  // A need without a value, or valued at another day's rate, is warned of, once, and nothing else is.
  ghost predicate WarnedOnce(v: Valuation, needs: seq<Need>, prices: Prices, rates: Rates, target: string) {
    && (forall k :: Says(v.warnings, k) <==> AnyWarns(needs, prices, rates, target, k))
    && (forall i, j :: 0 <= i < j < |v.warnings| ==> WarnKeyOf(v.warnings[i]) != WarnKeyOf(v.warnings[j]))
  }

  predicate IsMissing(w: Warning, tokenId: nat, date: string) {
    w.PriceMissing? && w.tokenId == tokenId && w.date == date
  }

  predicate IsShifted(w: Warning, date: string) { w.FxDateShifted? && w.target == date }

  ghost predicate Unvalued(v: Valuation, needs: seq<Need>, tokenId: nat, date: string)
    requires |v.values| == |needs|
  {
    exists k :: 0 <= k < |needs| && needs[k].tokenId == tokenId && needs[k].date == date && v.values[k].fiatValue.None?
  }

  // A token and date are warned of exactly when a need of them has no value, and once; a date exactly when
  // a need of it was valued at another day's rate, and once.
  lemma WarnedMeans(v: Valuation, needs: seq<Need>, prices: Prices, rates: Rates, target: string, tokenId: nat,
                    date: string)
    requires RatesPositive(rates) && AllPinned(v, needs, prices, rates, target)
    requires WarnedOnce(v, needs, prices, rates, target)
    ensures (exists w :: w in v.warnings && IsMissing(w, tokenId, date)) <==> Unvalued(v, needs, tokenId, date)
    ensures (exists w :: w in v.warnings && IsShifted(w, date)) <==>
      exists k :: 0 <= k < |needs| && needs[k].date == date && v.values[k].fiatValue.Some?
                  && prices[(needs[k].tokenId, date)].currency != target && rates[date].shifted
    ensures forall i, j :: 0 <= i < j < |v.warnings| ==>
      !(IsMissing(v.warnings[i], tokenId, date) && IsMissing(v.warnings[j], tokenId, date))
      && !(IsShifted(v.warnings[i], date) && IsShifted(v.warnings[j], date))
  {
    SaysMissing(v.warnings, tokenId, date);
    SaysShifted(v.warnings, date);
    forall k | 0 <= k < |needs|
      ensures WarningFor(needs[k], prices, rates, target) == Some(MissingKey(tokenId, date)) <==>
              needs[k].tokenId == tokenId && needs[k].date == date && v.values[k].fiatValue.None?
    {
      assert Pinned(v, v.values[k], needs[k], prices, rates, target);
    }
    forall k | 0 <= k < |needs|
      ensures WarningFor(needs[k], prices, rates, target) == Some(ShiftedKey(date)) <==>
              needs[k].date == date && v.values[k].fiatValue.Some?
              && prices[(needs[k].tokenId, date)].currency != target && rates[date].shifted
    {
      assert Pinned(v, v.values[k], needs[k], prices, rates, target);
    }
    assert Says(v.warnings, MissingKey(tokenId, date))
           <==> AnyWarns(needs, prices, rates, target, MissingKey(tokenId, date));
    assert Says(v.warnings, ShiftedKey(date)) <==> AnyWarns(needs, prices, rates, target, ShiftedKey(date));
  }

  lemma SaysMissing(warnings: seq<Warning>, tokenId: nat, date: string)
    ensures Says(warnings, MissingKey(tokenId, date)) <==> exists w :: w in warnings && IsMissing(w, tokenId, date)
  {
    if w :| w in warnings && IsMissing(w, tokenId, date) {
      var i :| 0 <= i < |warnings| && warnings[i] == w;
      assert WarnKeyOf(warnings[i]) == MissingKey(tokenId, date);
    }
    if i :| 0 <= i < |warnings| && WarnKeyOf(warnings[i]) == MissingKey(tokenId, date) {
      assert IsMissing(warnings[i], tokenId, date);
    }
  }

  lemma SaysShifted(warnings: seq<Warning>, date: string)
    ensures Says(warnings, ShiftedKey(date)) <==> exists w :: w in warnings && IsShifted(w, date)
  {
    if w :| w in warnings && IsShifted(w, date) {
      var i :| 0 <= i < |warnings| && warnings[i] == w;
      assert WarnKeyOf(warnings[i]) == ShiftedKey(date);
    }
    if i :| 0 <= i < |warnings| && WarnKeyOf(warnings[i]) == ShiftedKey(date) {
      assert IsShifted(warnings[i], date);
    }
  }

  // ------------------------------------------------------------------ one need after another

  function WithRefs(v: Valuation, value: ValuedNeed, p: Option<PriceRef>, f: Option<FxRef>): Valuation {
    v.(values := v.values + [value],
       priceRefs := if p.Some? then v.priceRefs[p.value.snapshotId := p.value] else v.priceRefs,
       fxRefs := if f.Some? then v.fxRefs[f.value.fxRateId := f.value] else v.fxRefs)
  }

  // The result after one more need, warnings aside.
  function Valued(v: Valuation, need: Need, prices: Prices, rates: Rates, target: string): Valuation
    requires forall d :: d in rates ==> rates[d].row.rate > 0.0
  {
    match Backing(need, prices, rates, target)
    case None => WithRefs(v, ValuedNeed(need.tokenId, need.date, None), None, None)
    case Some((s, fx)) =>
      WithRefs(v, ValuedNeed(need.tokenId, need.date, Some(Fiat(need, s, target, fx))), Some(PriceRefOf(need, s)),
               if fx.Some? then Some(FxRefOf(fx.value.row)) else None)
  }

  // Refs of one id always say the same.
  ghost predicate RatesPinned(rates: Rates) {
    forall a, b :: a in rates && b in rates && rates[a].row.id == rates[b].row.id ==> rates[a].row == rates[b].row
  }

  lemma StillPinned(v: Valuation, value: ValuedNeed, need: Need, next: Need, prices: Prices, rates: Rates,
                    target: string)
    requires RatesPositive(rates) && PricesPinned(prices) && RatesPinned(rates)
             && Pinned(v, value, need, prices, rates, target)
    ensures Pinned(Valued(v, next, prices, rates, target), value, need, prices, rates, target)
  {
  }

  lemma NowPinned(v: Valuation, need: Need, prices: Prices, rates: Rates, target: string)
    requires RatesPositive(rates)
    ensures var v' := Valued(v, need, prices, rates, target);
      v'.values == v.values + [v'.values[|v.values|]] && Pinned(v', v'.values[|v.values|], need, prices, rates, target)
  {
  }

  lemma ValuedKeepsPins(v: Valuation, done: seq<Need>, need: Need, prices: Prices, rates: Rates, target: string)
    requires RatesPositive(rates) && PricesPinned(prices) && RatesPinned(rates)
             && AllPinned(v, done, prices, rates, target)
    ensures AllPinned(Valued(v, need, prices, rates, target), done + [need], prices, rates, target)
  {
    var v', all := Valued(v, need, prices, rates, target), done + [need];
    NowPinned(v, need, prices, rates, target);
    forall i | 0 <= i < |all| ensures Pinned(v', v'.values[i], all[i], prices, rates, target) {
      if i < |done| { StillPinned(v, v.values[i], done[i], need, prices, rates, target); }
    }
  }

  lemma AnyCitesPush(done: seq<Need>, need: Need, prices: Prices, rates: Rates, target: string, p: PriceRef, id: int)
    ensures AnyCitesSnapshot(done + [need], prices, rates, target, p)
       <==> AnyCitesSnapshot(done, prices, rates, target, p)
            || (CitesSnapshot(need, prices, rates, target, p.snapshotId) && Labels(p, need))
    ensures AnyCitesRate(done + [need], prices, rates, target, id)
       <==> AnyCitesRate(done, prices, rates, target, id) || CitesRate(need, prices, rates, target, id)
  {
    var all := done + [need];
    assert all[|done|] == need && forall i :: 0 <= i < |done| ==> all[i] == done[i];
    if i :| 0 <= i < |done| && CitesSnapshot(done[i], prices, rates, target, p.snapshotId) && Labels(p, done[i]) {
      assert CitesSnapshot(all[i], prices, rates, target, p.snapshotId) && Labels(p, all[i]);
    }
    if i :| 0 <= i < |done| && CitesRate(done[i], prices, rates, target, id) {
      assert CitesRate(all[i], prices, rates, target, id);
    }
  }

  lemma ValuedNoStrayRefs(v: Valuation, done: seq<Need>, need: Need, prices: Prices, rates: Rates, target: string)
    requires RatesPositive(rates) && NoStrayRefs(v, done, prices, rates, target)
    ensures NoStrayRefs(Valued(v, need, prices, rates, target), done + [need], prices, rates, target)
  {
    var v' := Valued(v, need, prices, rates, target);
    forall id | id in v'.priceRefs
      ensures v'.priceRefs[id].snapshotId == id
      ensures AnyCitesSnapshot(done + [need], prices, rates, target, v'.priceRefs[id])
    {
      AnyCitesPush(done, need, prices, rates, target, v'.priceRefs[id], id);
    }
    forall id | id in v'.fxRefs
      ensures v'.fxRefs[id].fxRateId == id && AnyCitesRate(done + [need], prices, rates, target, id)
    {
      AnyCitesPush(done, need, prices, rates, target, PriceRef(0, "", "", "", "", 0.0), id);
    }
  }

  // A warning is added unless its key has been warned of.
  function Warn(warnings: seq<Warning>, warned: set<WarnKey>, w: Option<Warning>): seq<Warning> {
    if w.Some? && WarnKeyOf(w.value) !in warned then warnings + [w.value] else warnings
  }

  lemma WarnKeeps(v: Valuation, v': Valuation, done: seq<Need>, need: Need, prices: Prices, rates: Rates,
                  target: string, warned: set<WarnKey>, w: Option<Warning>)
    requires WarnedOnce(v, done, prices, rates, target) && forall k :: k in warned <==> Says(v.warnings, k)
    requires WarningFor(need, prices, rates, target) == (if w.Some? then Some(WarnKeyOf(w.value)) else None)
    requires v'.warnings == Warn(v.warnings, warned, w)
    ensures WarnedOnce(v', done + [need], prices, rates, target)
    ensures forall k :: Says(v'.warnings, k) <==> k in warned || WarningFor(need, prices, rates, target) == Some(k)
  {
    var all := done + [need];
    assert all[|done|] == need && forall i :: 0 <= i < |done| ==> all[i] == done[i];
    forall k
      ensures Says(v'.warnings, k) <==> k in warned || WarningFor(need, prices, rates, target) == Some(k)
      ensures AnyWarns(all, prices, rates, target, k)
              <==> AnyWarns(done, prices, rates, target, k) || WarningFor(need, prices, rates, target) == Some(k)
    {
      SaysPush(v.warnings, warned, w, k);
      if i :| 0 <= i < |done| && WarningFor(done[i], prices, rates, target) == Some(k) { assert all[i] == done[i]; }
    }
  }

  lemma SaysPush(warnings: seq<Warning>, warned: set<WarnKey>, w: Option<Warning>, k: WarnKey)
    requires forall k :: k in warned <==> Says(warnings, k)
    ensures Says(Warn(warnings, warned, w), k) <==> k in warned || (w.Some? && WarnKeyOf(w.value) == k)
  {
    var after := Warn(warnings, warned, w);
    if i :| 0 <= i < |warnings| && WarnKeyOf(warnings[i]) == k { assert after[i] == warnings[i]; }
    if w.Some? && WarnKeyOf(w.value) !in warned { assert after[|warnings|] == w.value; }
  }

  // ------------------------------------------------------------------ the batch

  // fx.ts:56-79, over the rows its query returned.
  method ResolveFxRates(rows: seq<FxRow>, dates: set<string>) returns (rates: Rates)
    requires UniqueRates(rows)
    ensures forall d :: d in rates ==> d in dates
    ensures forall d :: d in dates ==> RateFor(rates, d) == RateAt(rows, d)
  {
    rates := map[];
    var todo := dates;
    while todo != {}
      invariant todo <= dates
      invariant forall d :: d in rates ==> d in dates && d !in todo
      invariant forall d :: d in dates - todo ==> RateFor(rates, d) == RateAt(rows, d)
      decreases |todo|
    {
      var d :| d in todo;
      var picked := PickLatestRate(rows, d);
      RateAtIs(rows, d, picked);
      if picked.Some? { rates := rates[d := picked.value]; }
      todo := todo - {d};
    }
  }

  lemma RatesFromRows(rows: seq<FxRow>, rates: Rates, dates: set<string>)
    requires UniqueRates(rows) && PositiveRates(rows)
    requires (forall d :: d in rates ==> d in dates) && forall d :: d in dates ==> RateFor(rates, d) == RateAt(rows, d)
    ensures RatesPositive(rates) && RatesPinned(rates)
  {
    forall d | d in rates ensures rates[d].row in rows { assert RateFor(rates, d) == RateAt(rows, d); }
    forall a, b | a in rates && b in rates && rates[a].row.id == rates[b].row.id ensures rates[a].row == rates[b].row {
      var i :| 0 <= i < |rows| && rows[i] == rates[a].row;
      var j :| 0 <= j < |rows| && rows[j] == rates[b].row;
    }
  }

  predicate NeedsRate(need: Need, prices: Prices, target: string) {
    var s := SnapshotFor(prices, need);
    s.Some? && s.value.currency != target && IsSupportedFxPair(s.value.currency, target)
  }

  // value.ts:109-113.
  method RateDates(needs: seq<Need>, prices: Prices, target: string) returns (dates: set<string>)
    ensures forall i :: 0 <= i < |needs| && NeedsRate(needs[i], prices, target) ==> needs[i].date in dates
  {
    dates := {};
    for i := 0 to |needs|
      invariant forall k :: 0 <= k < i && NeedsRate(needs[k], prices, target) ==> needs[k].date in dates
    {
      if NeedsRate(needs[i], prices, target) { dates := dates + {needs[i].date}; }
    }
  }

  // Why a need has no value (value.ts:136-148).
  function ReasonFor(need: Need, prices: Prices, target: string): string {
    var s := SnapshotFor(prices, need);
    if s.None? then "price snapshot"
    else if !IsSupportedFxPair(s.value.currency, target) then "FX pair unsupported"
    else "FX rate"
  }

  method ValueNeed(v: Valuation, warned: set<WarnKey>, need: Need, prices: Prices, rates: Rates, target: string)
    returns (v': Valuation, w: Option<Warning>)
    requires RatesPositive(rates)
    ensures v' == Valued(v, need, prices, rates, target).(warnings := Warn(v.warnings, warned, w))
    ensures WarningFor(need, prices, rates, target) == (if w.Some? then Some(WarnKeyOf(w.value)) else None)
  {
    var s := SnapshotFor(prices, need);
    if s.Some? && Convertible(s.value, target, RateFor(rates, need.date)) {
      var one := ValueOne(need, s.value, target, RateFor(rates, need.date));
      w := one.value.warning;
      ghost var fx := if s.value.currency == target then None else RateFor(rates, need.date);
      assert Backing(need, prices, rates, target) == Some((s.value, fx));
      assert one.value.value == Fiat(need, s.value, target, fx);
      assert one.value.fxRef == if fx.Some? then Some(FxRefOf(fx.value.row)) else None;
      v' := WithRefs(v, ValuedNeed(need.tokenId, need.date, Some(one.value.value)), Some(one.value.priceRef),
                     one.value.fxRef);
    } else {
      assert Backing(need, prices, rates, target).None?;
      w := Some(PriceMissing(need.tokenId, need.date, ReasonFor(need, prices, target)));
      v' := WithRefs(v, ValuedNeed(need.tokenId, need.date, None), None, None);
    }
    v' := v'.(warnings := Warn(v.warnings, warned, w));
  }

  // value.ts:95-164. Values stand in the order of the needs; each is the stated product of a price and
  // a rate that the result cites, or missing and warned of.
  method ValueQuantities(needs: seq<Need>, prices: Prices, rows: seq<FxRow>, target: string)
      returns (v: Valuation, rates: Rates)
    requires UniqueRates(rows) && PositiveRates(rows) && PricesPinned(prices)
    ensures RatesPositive(rates)
    ensures forall i ::
      0 <= i < |needs| && NeedsRate(needs[i], prices, target) ==>
        RateFor(rates, needs[i].date) == RateAt(rows, needs[i].date)
    ensures AllPinned(v, needs, prices, rates, target)
    ensures NoStrayRefs(v, needs, prices, rates, target)
    ensures WarnedOnce(v, needs, prices, rates, target)
    ensures |v.values| == |needs|
    ensures forall i :: 0 <= i < |needs| ==> Reproducible(v, v.values[i], needs[i], prices, rows, target)
  {
    var dates := RateDates(needs, prices, target);
    rates := ResolveFxRates(rows, dates);
    RatesFromRows(rows, rates, dates);
    v := Valuation([], map[], map[], []);
    var warned: set<WarnKey> := {};
    for i := 0 to |needs|
      invariant AllPinned(v, needs[..i], prices, rates, target)
      invariant NoStrayRefs(v, needs[..i], prices, rates, target)
      invariant WarnedOnce(v, needs[..i], prices, rates, target)
      invariant forall k :: k in warned <==> Says(v.warnings, k)
    {
      ghost var before := v;
      var w;
      v, w := ValueNeed(v, warned, needs[i], prices, rates, target);
      NeedKeeps(before, v, needs[..i], needs[i], prices, rates, target, warned, w);
      if w.Some? { warned := warned + {WarnKeyOf(w.value)}; }
      assert needs[..i + 1] == needs[..i] + [needs[i]];
    }
    assert needs[..|needs|] == needs;
    forall i | 0 <= i < |needs| ensures Reproducible(v, v.values[i], needs[i], prices, rows, target) {
      PinnedReproduces(v, v.values[i], needs[i], prices, rows, rates, target);
    }
  }

  // ------------------------------------------------------------------ computing a value again

  // The snapshot exists, and is in the target currency or can be brought there: only between dollars
  // and euros, by a rate not after the day.
  ghost predicate Priceable(need: Need, prices: Prices, rows: seq<FxRow>, target: string) {
    && (need.tokenId, need.date) in prices
    && var currency := prices[(need.tokenId, need.date)].currency;
       currency == target
       || (((currency == "USD" && target == "EUR") || (currency == "EUR" && target == "USD"))
           && exists r :: r in rows && CompareStr(r.rateDate, need.date) <= 0)
  }

  ghost predicate PriceBehind(p: PriceRef, need: Need, prices: Prices) {
    (need.tokenId, need.date) in prices && CitesPrice(p, prices[(need.tokenId, need.date)])
  }

  ghost predicate RateBehind(f: FxRef, need: Need, rows: seq<FxRow>) {
    exists b :: IsBest(rows, need.date, b) && CitesFx(f, b)
  }

  // Rates are dollars for a euro.
  predicate Converted(value: real, own: real, currency: string, target: string, rate: real) {
    (currency == "USD" && target == "EUR" && value * rate == own)
    || (currency == "EUR" && target == "USD" && value == own * rate)
  }

  // A need that can be priced has a value, and the result itself says how to get it: from the price
  // of a ref in it, and where that is in another currency from the rate of a second one. The refs are those
  // of the day's snapshot and of the best rate of the day.
  ghost predicate Reproducible(v: Valuation, value: ValuedNeed, need: Need, prices: Prices, rows: seq<FxRow>,
                               target: string)
  {
    && value.tokenId == need.tokenId && value.date == need.date
    && match value.fiatValue
       case None => !Priceable(need, prices, rows, target)
       case Some(x) =>
         && Priceable(need, prices, rows, target)
         && exists p :: p in v.priceRefs.Values && PriceBehind(p, need, prices)
                        && (if p.currency == target then x == need.amount * p.price
                            else ByRate(v, x, need, p, rows, target))
  }

  ghost predicate ByRate(v: Valuation, x: real, need: Need, p: PriceRef, rows: seq<FxRow>, target: string) {
    exists f :: f in v.fxRefs.Values && RateBehind(f, need, rows)
                && Converted(x, need.amount * p.price, p.currency, target, f.rate)
  }

  lemma RateExists(rows: seq<FxRow>, date: string) returns (b: FxRow)
    requires UniqueRates(rows) && exists r :: r in rows && CompareStr(r.rateDate, date) <= 0
    ensures IsBest(rows, date, b)
  {
    assert rows[..|rows|] == rows;
    var r :| r in rows && CompareStr(r.rateDate, date) <= 0;
    assert r in rows[..|rows|] && IsEligible(r, date);
    b := BestOf(rows, |rows|, date);
  }

  lemma {:induction false} BestOf(rows: seq<FxRow>, n: nat, date: string) returns (b: FxRow)
    requires UniqueRates(rows) && n <= |rows| && exists r :: r in rows[..n] && IsEligible(r, date)
    ensures IsBest(rows[..n], date, b)
  {
    assert n > 0 && rows[..n] == rows[..n - 1] + [rows[n - 1]];
    if exists r :: r in rows[..n - 1] && IsEligible(r, date) {
      b := BestOf(rows, n - 1, date);
      if IsEligible(rows[n - 1], date) {
        BestStep(rows, n - 1, date, b);
        b := if Beats(rows[n - 1], b) then rows[n - 1] else b;
      }
    } else {
      b := rows[n - 1];
    }
  }

  lemma RateAtExists(rows: seq<FxRow>, date: string)
    requires UniqueRates(rows)
    ensures RateAt(rows, date).Some? <==> exists r :: r in rows && CompareStr(r.rateDate, date) <= 0
  {
    if exists r :: r in rows && CompareStr(r.rateDate, date) <= 0 {
      var b := RateExists(rows, date);
    }
  }

  lemma PinnedReproduces(v: Valuation, value: ValuedNeed, need: Need, prices: Prices, rows: seq<FxRow>, rates: Rates,
                         target: string)
    requires UniqueRates(rows) && RatesPositive(rates)
    requires NeedsRate(need, prices, target) ==> RateFor(rates, need.date) == RateAt(rows, need.date)
    requires Pinned(v, value, need, prices, rates, target)
    ensures Reproducible(v, value, need, prices, rows, target)
  {
    RateAtExists(rows, need.date);
    var backing := Backing(need, prices, rates, target);
    if backing.Some? {
      var s, fx := backing.value.0, backing.value.1;
      var p := v.priceRefs[s.id];
      assert p in v.priceRefs.Values && PriceBehind(p, need, prices);
      if fx.Some? {
        var f := v.fxRefs[fx.value.row.id];
        assert f in v.fxRefs.Values && IsBest(rows, need.date, fx.value.row) && RateBehind(f, need, rows);
        FiatConverts(need, s, target, fx.value);
        assert ByRate(v, value.fiatValue.value, need, p, rows, target);
      }
    }
  }

  lemma NeedKeeps(v: Valuation, v': Valuation, done: seq<Need>, need: Need, prices: Prices, rates: Rates,
                  target: string, warned: set<WarnKey>, w: Option<Warning>)
    requires RatesPositive(rates) && PricesPinned(prices) && RatesPinned(rates)
    requires AllPinned(v, done, prices, rates, target) && NoStrayRefs(v, done, prices, rates, target)
    requires WarnedOnce(v, done, prices, rates, target) && forall k :: k in warned <==> Says(v.warnings, k)
    requires v' == Valued(v, need, prices, rates, target).(warnings := Warn(v.warnings, warned, w))
    requires WarningFor(need, prices, rates, target) == (if w.Some? then Some(WarnKeyOf(w.value)) else None)
    ensures AllPinned(v', done + [need], prices, rates, target)
    ensures NoStrayRefs(v', done + [need], prices, rates, target)
    ensures WarnedOnce(v', done + [need], prices, rates, target)
    ensures forall k :: Says(v'.warnings, k) <==> k in warned || WarningFor(need, prices, rates, target) == Some(k)
  {
    ValuedKeepsPins(v, done, need, prices, rates, target);
    ValuedNoStrayRefs(v, done, need, prices, rates, target);
    WarnKeeps(v, v', done, need, prices, rates, target, warned, w);
    var v1 := Valued(v, need, prices, rates, target);
    forall i | 0 <= i < |done + [need]| ensures Pinned(v', v'.values[i], (done + [need])[i], prices, rates, target) {
      assert Pinned(v1, v1.values[i], (done + [need])[i], prices, rates, target);
    }
  }
}
