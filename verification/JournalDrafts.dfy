// Manual-journal drafts over confirmed settlements (packages/exporters/src/journal-drafts.ts).

module JournalDrafts {
  import opened Text
  import opened Sequences
  import opened Rounding

  datatype Category = CryptoAsset | AccountsReceivable | AccountsPayable | VatOutput | VatInput

  datatype Direction = Receivable | Payable

  // `description` is the sanitized reference and counterparty; `grossFiat` is counted in cents.
  datatype Entry = Entry(externalRef: string, description: string, date: string, currency: string,
                         direction: Direction, grossFiat: real, vatRate: Option<real>)

  datatype TaggedLine = TaggedLine(journalNo: nat, date: string, category: Category, description: string,
                                   debit: int, credit: int, currency: string)

  datatype LineSide = Debit | Credit

  function Line(journalNo: nat, e: Entry, category: Category, side: LineSide, amount: int): TaggedLine {
    TaggedLine(journalNo, e.date, category, e.description,
               if side == Debit then amount else 0, if side == Credit then amount else 0, e.currency)
  }

  // ------------------------------------------------------------------ one entry

  function Gross(e: Entry): int { RoundHalfUp(e.grossFiat) }

  function ControlOf(d: Direction): Category { if d == Receivable then AccountsReceivable else AccountsPayable }

  function VatOf(d: Direction): Category { if d == Receivable then VatOutput else VatInput }

  function ControlSide(d: Direction): LineSide { if d == Receivable then Credit else Debit }

  function AssetSide(d: Direction): LineSide { if d == Receivable then Debit else Credit }

  // The part of the gross that goes to the control account.
  function NetPart(e: Entry): int {
    if e.vatRate.Some? && e.vatRate.value > 0.0 then NetOfVat(Gross(e), e.vatRate.value) else Gross(e)
  }

  // The lines of an entry that rounds to a positive gross.
  function LinesOf(e: Entry, journalNo: nat): seq<TaggedLine> {
    [Line(journalNo, e, CryptoAsset, AssetSide(e.direction), Gross(e)),
     Line(journalNo, e, ControlOf(e.direction), ControlSide(e.direction), NetPart(e))]
    + if Gross(e) == NetPart(e) then []
      else [Line(journalNo, e, VatOf(e.direction), ControlSide(e.direction), Gross(e) - NetPart(e))]
  }

  // journal-drafts.ts:84-111. None is the error of a negative gross.
  method EntryLines(e: Entry, journalNo: nat) returns (r: Option<seq<TaggedLine>>)
    ensures r.None? <==> Gross(e) < 0
    ensures r.Some? ==> r.value == if Gross(e) == 0 then [] else LinesOf(e, journalNo)
  {
    var V := RoundHalfUp(e.grossFiat);
    if V == 0 { return Some([]); }
    if V < 0 { return None; }
    var lines := [Line(journalNo, e, CryptoAsset, AssetSide(e.direction), V)];
    if e.vatRate.Some? && e.vatRate.value > 0.0 {
      var net := NetOfVat(V, e.vatRate.value);
      var vat := V - net;
      lines := lines + [Line(journalNo, e, ControlOf(e.direction), ControlSide(e.direction), net)];
      if vat != 0 { lines := lines + [Line(journalNo, e, VatOf(e.direction), ControlSide(e.direction), vat)]; }
    } else {
      lines := lines + [Line(journalNo, e, ControlOf(e.direction), ControlSide(e.direction), V)];
    }
    return Some(lines);
  }

  function Debits(lines: seq<TaggedLine>): int {
    if lines == [] then 0 else Debits(lines[..|lines| - 1]) + lines[|lines| - 1].debit
  }

  function Credits(lines: seq<TaggedLine>): int {
    if lines == [] then 0 else Credits(lines[..|lines| - 1]) + lines[|lines| - 1].credit
  }

  lemma {:induction false} SumsConcat(a: seq<TaggedLine>, b: seq<TaggedLine>)
    ensures Debits(a + b) == Debits(a) + Debits(b)
    ensures Credits(a + b) == Credits(a) + Credits(b)
    decreases |b|
  {
    if b == [] {
      assert a + b == a;
    } else {
      var n := |b| - 1;
      assert (a + b)[..|a + b| - 1] == a + b[..n];
      SumsConcat(a, b[..n]);
    }
  }

  lemma SumsOfOne(l: TaggedLine)
    ensures Debits([l]) == l.debit && Credits([l]) == l.credit
  {
    assert [l][..0] == [];
  }

  // A line posts one non-negative amount on one side.
  predicate OneSided(l: TaggedLine) { l.debit >= 0 && l.credit >= 0 && (l.debit == 0 || l.credit == 0) }

  // Every entry balances after rounding: debits and credits are both its rounded gross, net and VAT
  // lie between nothing and it, and the net is the exact one to half a cent.
  lemma EntryBalances(e: Entry, journalNo: nat)
    requires Gross(e) > 0
    ensures Debits(LinesOf(e, journalNo)) == Gross(e) == Credits(LinesOf(e, journalNo))
    ensures forall l ::
      l in LinesOf(e, journalNo) ==>
        OneSided(l) && l.journalNo == journalNo && l.currency == e.currency
        && l.date == e.date && l.description == e.description
    ensures 0 <= NetPart(e) <= Gross(e)
    ensures e.vatRate.Some? && e.vatRate.value > 0.0
            ==> Distance(NetPart(e) as real, ExactNet(Gross(e), e.vatRate.value)) <= 0.5
  {
    if e.vatRate.Some? && e.vatRate.value > 0.0 { VatSplit(Gross(e), e.vatRate.value); }
    var a := Line(journalNo, e, CryptoAsset, AssetSide(e.direction), Gross(e));
    var b := Line(journalNo, e, ControlOf(e.direction), ControlSide(e.direction), NetPart(e));
    var rest := if Gross(e) == NetPart(e) then []
      else [Line(journalNo, e, VatOf(e.direction), ControlSide(e.direction), Gross(e) - NetPart(e))];
    SumsOfOne(a);
    SumsOfOne(b);
    SumsConcat([a], [b]);
    assert [a] + [b] == [a, b];
    SumsConcat([a, b], rest);
    if rest != [] { SumsOfOne(rest[0]); }
  }

  // What lines post to an account, debits up and credits down.
  function Posted(lines: seq<TaggedLine>, c: Category): int {
    if lines == [] then 0
    else
      Posted(lines[..|lines| - 1], c)
      + (if lines[|lines| - 1].category == c then lines[|lines| - 1].debit - lines[|lines| - 1].credit else 0)
  }

  // A receivable raises the asset account by the gross and clears the receivable and the output VAT;
  // a payable does the opposite with its own accounts. No other account moves.
  lemma EntryPostings(e: Entry, journalNo: nat, c: Category)
    requires Gross(e) > 0
    ensures var up := if e.direction == Receivable then 1 else -1;
      Posted(LinesOf(e, journalNo), c) ==
      if c == CryptoAsset then up * Gross(e)
      else if c == (if e.direction == Receivable then AccountsReceivable else AccountsPayable) then -up * NetPart(e)
      else if c == (if e.direction == Receivable then VatOutput else VatInput) then -up * (Gross(e) - NetPart(e))
      else 0
  {
    var lines := LinesOf(e, journalNo);
    assert lines[..2][..1] == [lines[0]] && lines[..2][..1][..0] == [];
    assert Posted(lines[..2], c) == Posted([lines[0]], c)
           + (if lines[1].category == c then lines[1].debit - lines[1].credit else 0);
    assert Posted([lines[0]], c) == if lines[0].category == c then lines[0].debit - lines[0].credit else 0;
    if |lines| == 3 { assert lines[..|lines| - 1] == lines[..2]; } else { assert lines == lines[..2]; }
  }

  // ------------------------------------------------------------------ all entries, numbered

  // How many entries so far take a journal number.
  function Numbered(entries: seq<Entry>): nat {
    if entries == [] then 0
    else Numbered(entries[..|entries| - 1]) + if Gross(entries[|entries| - 1]) == 0 then 0 else 1
  }

  function Built(entries: seq<Entry>): seq<TaggedLine> {
    if entries == [] then []
    else
      Built(entries[..|entries| - 1]) + NextLines(Numbered(entries[..|entries| - 1]), entries[|entries| - 1])
  }

  // The lines of an entry after n numbered ones.
  function NextLines(n: nat, e: Entry): seq<TaggedLine> {
    if Gross(e) == 0 then [] else LinesOf(e, n + 1)
  }

  lemma NextLinesFacts(n: nat, e: Entry)
    requires Gross(e) >= 0
    ensures forall l :: l in NextLines(n, e) ==> l.journalNo == n + 1 && l.currency == e.currency && OneSided(l)
    ensures NextLines(n, e) == [] <==> Gross(e) == 0
    ensures Debits(NextLines(n, e)) == Credits(NextLines(n, e))
  {
    if Gross(e) > 0 { EntryBalances(e, n + 1); }
  }

  predicate NoneNegative(entries: seq<Entry>) { forall e :: e in entries ==> Gross(e) >= 0 }

  lemma BuiltStep(entries: seq<Entry>, i: nat)
    requires i < |entries|
    ensures Built(entries[..i + 1]) == Built(entries[..i]) + NextLines(Numbered(entries[..i]), entries[i])
    ensures Numbered(entries[..i + 1]) == Numbered(entries[..i]) + if Gross(entries[i]) == 0 then 0 else 1
    ensures entries[..i + 1] == entries[..i] + [entries[i]]
  {
    assert entries[..i + 1][..i] == entries[..i];
  }

  // journal-drafts.ts:117-130, over the sorted entries.
  method BuildLines(entries: seq<Entry>) returns (r: Option<seq<TaggedLine>>)
    ensures r.Some? <==> NoneNegative(entries)
    ensures r.Some? ==> r.value == Built(entries)
  {
    var journalNo := 0;
    var built: seq<TaggedLine> := [];
    for i := 0 to |entries|
      invariant NoneNegative(entries[..i])
      invariant journalNo == Numbered(entries[..i]) && built == Built(entries[..i])
    {
      BuiltStep(entries, i);
      var lines := EntryLines(entries[i], journalNo + 1);
      if lines.None? {
        assert entries[i] in entries;
        return None;
      }
      built := built + lines.value;
      if |lines.value| > 0 { journalNo := journalNo + 1; }
    }
    assert entries[..|entries|] == entries;
    return Some(built);
  }

  function OfJournal(no: nat): TaggedLine -> bool { (l: TaggedLine) => l.journalNo == no }

  function InCurrency(currency: string): TaggedLine -> bool { (l: TaggedLine) => l.currency == currency }

  lemma {:induction false} NumbersUpTo(entries: seq<Entry>)
    requires NoneNegative(entries)
    ensures forall l :: l in Built(entries) ==> 1 <= l.journalNo <= Numbered(entries) && OneSided(l)
  {
    if entries != [] {
      var n := |entries| - 1;
      assert entries[n] in entries;
      NumbersUpTo(entries[..n]);
      NextLinesFacts(Numbered(entries[..n]), entries[n]);
    }
  }

  // The index of the entry that takes a number.
  function Holder(entries: seq<Entry>, no: nat): (i: nat)
    requires 1 <= no <= Numbered(entries)
    ensures i < |entries| && Gross(entries[i]) != 0 && no == Numbered(entries[..i]) + 1
  {
    var n := |entries| - 1;
    if Gross(entries[n]) != 0 && no == Numbered(entries[..n]) + 1 then n
    else
      var i := Holder(entries[..n], no);
      assert entries[..n][..i] == entries[..i];
      i
  }

  // A tail that is all in or all out of the filter, in when nothing before it is.
  lemma FilterTail(p: TaggedLine -> bool, before: seq<TaggedLine>, mine: seq<TaggedLine>, keep: bool)
    requires forall l :: l in mine ==> p(l) == keep
    requires keep ==> forall l :: l in before ==> !p(l)
    ensures Filter(p, before + mine) == if keep then mine else Filter(p, before)
  {
    FilterConcat(p, before, mine);
    FilterAllOrNone(p, mine, keep);
    if keep { FilterAllOrNone(p, before, false); }
  }

  lemma NumberSplits(init: seq<Entry>, e: Entry, no: nat)
    requires NoneNegative(init) && Gross(e) >= 0
    ensures Filter(OfJournal(no), Built(init) + NextLines(Numbered(init), e)) ==
            if no == Numbered(init) + 1 then NextLines(Numbered(init), e) else Filter(OfJournal(no), Built(init))
  {
    NumbersUpTo(init);
    NextLinesFacts(Numbered(init), e);
    FilterTail(OfJournal(no), Built(init), NextLines(Numbered(init), e), no == Numbered(init) + 1);
  }

  // The numbers are exactly 1 to n over the entries that post something: each is one entry's, and
  // the lines under it are that entry's.
  lemma {:induction false} EachNumberOneEntry(entries: seq<Entry>, no: nat)
    requires NoneNegative(entries) && 1 <= no <= Numbered(entries)
    ensures Filter(OfJournal(no), Built(entries)) == NextLines(no - 1, entries[Holder(entries, no)])
  {
    var n := |entries| - 1;
    assert entries[n] in entries;
    NumberSplits(entries[..n], entries[n], no);
    if !(Gross(entries[n]) != 0 && no == Numbered(entries[..n]) + 1) {
      EachNumberOneEntry(entries[..n], no);
    }
  }

  // Every journal balances, and has lines.
  lemma NumberBalances(entries: seq<Entry>, no: nat)
    requires NoneNegative(entries) && 1 <= no <= Numbered(entries)
    ensures Filter(OfJournal(no), Built(entries)) != []
    ensures Debits(Filter(OfJournal(no), Built(entries))) == Credits(Filter(OfJournal(no), Built(entries)))
  {
    EachNumberOneEntry(entries, no);
    var e := entries[Holder(entries, no)];
    assert e in entries;
    NextLinesFacts(no - 1, e);
  }

  // Σ debits − Σ credits of one currency.
  function Residue(lines: seq<TaggedLine>, currency: string): int {
    Debits(Filter(InCurrency(currency), lines)) - Credits(Filter(InCurrency(currency), lines))
  }

  // Every currency balances, whatever the entries: the divergence error is never raised.
  lemma {:induction false} CurrencyBalances(entries: seq<Entry>, currency: string)
    requires NoneNegative(entries)
    ensures Residue(Built(entries), currency) == 0
  {
    if entries != [] {
      var n := |entries| - 1;
      var init, e := entries[..n], entries[n];
      assert e in entries;
      CurrencyBalances(init, currency);
      var mine := NextLines(Numbered(init), e);
      NextLinesFacts(Numbered(init), e);
      FilterConcat(InCurrency(currency), Built(init), mine);
      SumsConcat(Filter(InCurrency(currency), Built(init)), Filter(InCurrency(currency), mine));
      FilterAllOrNone(InCurrency(currency), mine, e.currency == currency);
    }
  }

  // ------------------------------------------------------------------ order

  function Precedes(a: string, b: string): bool { CompareStr(a, b) < 0 }

  function StringOrder(): (string, string) -> bool { (a: string, b: string) => Precedes(a, b) }

  function DirectionText(d: Direction): string { if d == Receivable then "receivable" else "payable" }

  // `a || b || c` over comparison results: the first that is not zero.
  function FirstNonZero(a: int, b: int): int { if a != 0 then a else b }

  function CompareEntries(a: Entry, b: Entry): int {
    FirstNonZero(CompareStr(a.currency, b.currency),
      FirstNonZero(CompareStr(a.date, b.date),
        FirstNonZero(CompareStr(a.externalRef, b.externalRef),
                     CompareStr(DirectionText(a.direction), DirectionText(b.direction)))))
  }

  function EntryOrder(): (Entry, Entry) -> bool { (a: Entry, b: Entry) => CompareEntries(a, b) < 0 }

  function Sorted(entries: seq<Entry>): seq<Entry> { SortBy(EntryOrder(), entries) }

  // Entries stand by currency, then date, then reference, payables before receivables.
  ghost predicate StandsBefore(a: Entry, b: Entry) {
    && CompareStr(a.currency, b.currency) <= 0
    && (a.currency == b.currency ==> CompareStr(a.date, b.date) <= 0)
    && (a.currency == b.currency && a.date == b.date ==> CompareStr(a.externalRef, b.externalRef) <= 0)
    && (a.currency == b.currency && a.date == b.date && a.externalRef == b.externalRef ==>
          !(a.direction == Receivable && b.direction == Payable))
  }

  lemma SortedStands(entries: seq<Entry>, i: nat, j: nat)
    requires i < j < |Sorted(entries)|
    ensures multiset(Sorted(entries)) == multiset(entries)
    ensures StandsBefore(Sorted(entries)[i], Sorted(entries)[j])
  {
    EntryOrderComparator();
    SortOrdered(EntryOrder(), entries);
    assert !EntryOrder()(Sorted(entries)[j], Sorted(entries)[i]);
    NotBefore(Sorted(entries)[i], Sorted(entries)[j]);
  }

  lemma NotBefore(a: Entry, b: Entry)
    requires CompareEntries(b, a) >= 0
    ensures StandsBefore(a, b)
  {
    CompareStrLaws(a.currency, b.currency);
    CompareStrLaws(a.date, b.date);
    CompareStrLaws(a.externalRef, b.externalRef);
    assert CompareStr("payable", "receivable") == -1;
  }

  // Comparison results on the way to a total preorder.
  ghost predicate Compares<T(!new)>(cmp: (T, T) -> int) {
    && (forall x, y :: Sign(cmp(x, y)) == -Sign(cmp(y, x)))
    && (forall x, y, z :: cmp(x, y) <= 0 && cmp(y, z) <= 0 ==> cmp(x, z) <= 0)
  }

  function ByKey(key: Entry -> string): (Entry, Entry) -> int { (a: Entry, b: Entry) => CompareStr(key(a), key(b)) }

  lemma ByKeyCompares(key: Entry -> string)
    ensures Compares(ByKey(key))
  {
    forall x: Entry, y: Entry ensures Sign(ByKey(key)(x, y)) == -Sign(ByKey(key)(y, x)) {
      CompareStrLaws(key(x), key(y));
    }
    forall x: Entry, y: Entry, z: Entry | ByKey(key)(x, y) <= 0 && ByKey(key)(y, z) <= 0 ensures ByKey(key)(x, z) <= 0 {
      CompareStrTransitive(key(x), key(y), key(z));
    }
  }

  function Then<T>(f: (T, T) -> int, g: (T, T) -> int): (T, T) -> int { (x: T, y: T) => FirstNonZero(f(x, y), g(x, y)) }

  lemma ThenCompares<T(!new)>(f: (T, T) -> int, g: (T, T) -> int)
    requires Compares(f) && Compares(g)
    ensures Compares(Then(f, g))
  {
    forall x, y, z | Then(f, g)(x, y) <= 0 && Then(f, g)(y, z) <= 0 ensures Then(f, g)(x, z) <= 0 {
      assert f(x, y) <= 0 && f(y, z) <= 0;
      assert Sign(f(x, y)) == -Sign(f(y, x)) && Sign(f(y, z)) == -Sign(f(z, y)) && Sign(f(x, z)) == -Sign(f(z, x));
      if f(x, z) == 0 {
        assert f(z, y) <= 0 ==> f(x, y) <= 0;
        assert f(y, x) <= 0 && f(z, x) <= 0;
        assert f(y, z) == 0 && f(x, y) == 0;
      }
    }
  }

  lemma ComparatorOf<T(!new)>(cmp: (T, T) -> int, less: (T, T) -> bool)
    requires Compares(cmp) && forall x, y :: less(x, y) <==> cmp(x, y) < 0
    ensures Comparator(less)
  {
    forall x, y | less(x, y) ensures !less(y, x) { assert Sign(cmp(x, y)) == -Sign(cmp(y, x)); }
    forall x, y, z | !less(y, x) && !less(z, y) ensures !less(z, x) {
      assert Sign(cmp(x, y)) == -Sign(cmp(y, x)) && Sign(cmp(y, z)) == -Sign(cmp(z, y))
             && Sign(cmp(x, z)) == -Sign(cmp(z, x));
    }
  }

  lemma EntryOrderComparator()
    ensures Comparator(EntryOrder())
  {
    var byCurrency := ByKey((e: Entry) => e.currency);
    var byDate := ByKey((e: Entry) => e.date);
    var byRef := ByKey((e: Entry) => e.externalRef);
    var byDirection := ByKey((e: Entry) => DirectionText(e.direction));
    ByKeyCompares((e: Entry) => e.currency);
    ByKeyCompares((e: Entry) => e.date);
    ByKeyCompares((e: Entry) => e.externalRef);
    ByKeyCompares((e: Entry) => DirectionText(e.direction));
    ThenCompares(byRef, byDirection);
    ThenCompares(byDate, Then(byRef, byDirection));
    ThenCompares(byCurrency, Then(byDate, Then(byRef, byDirection)));
    ComparatorOf(Then(byCurrency, Then(byDate, Then(byRef, byDirection))), EntryOrder());
  }

  // ------------------------------------------------------------------ grouping by currency

  function Dedup(s: seq<string>): (r: seq<string>)
    ensures forall x :: x in r <==> x in s
  {
    if s == [] then []
    else
      var r := Dedup(s[..|s| - 1]);
      assert s == s[..|s| - 1] + [s[|s| - 1]];
      if s[|s| - 1] in r then r else r + [s[|s| - 1]]
  }

  lemma {:induction false} DedupDistinct(s: seq<string>)
    ensures Distinct(Dedup(s))
  {
    if s != [] { DedupDistinct(s[..|s| - 1]); }
  }

  // [...new Set(currencies)].sort().
  function CurrenciesOf(lines: seq<TaggedLine>): seq<string> {
    SortBy(StringOrder(), Dedup(Map((l: TaggedLine) => l.currency, lines)))
  }

  function Grouped(lines: seq<TaggedLine>, currencies: seq<string>): seq<TaggedLine> {
    if currencies == [] then []
    else Grouped(lines, currencies[..|currencies| - 1]) + Filter(InCurrency(currencies[|currencies| - 1]), lines)
  }

  ghost predicate StrictlyUp(s: seq<string>) { forall i, j :: 0 <= i < j < |s| ==> Precedes(s[i], s[j]) }

  ghost predicate ByCurrency(lines: seq<TaggedLine>) {
    forall i, j :: 0 <= i < j < |lines| ==> !Precedes(lines[j].currency, lines[i].currency)
  }

  lemma StringOrderComparator()
    ensures Comparator(StringOrder())
  {
    forall x: string, y: string | Precedes(x, y) ensures !Precedes(y, x) { CompareStrLaws(x, y); }
    forall x: string, y: string, z: string | !Precedes(y, x) && !Precedes(z, y) ensures !Precedes(z, x) {
      CompareStrLaws(x, y);
      CompareStrLaws(y, z);
      CompareStrLaws(x, z);
      CompareStrTransitive(x, y, z);
    }
  }

  lemma CurrenciesFacts(lines: seq<TaggedLine>)
    ensures StrictlyUp(CurrenciesOf(lines))
    ensures forall c :: c in CurrenciesOf(lines) <==> exists l :: l in lines && l.currency == c
  {
    var all := Map((l: TaggedLine) => l.currency, lines);
    var cs := CurrenciesOf(lines);
    DedupDistinct(all);
    StringOrderComparator();
    SortOrdered(StringOrder(), Dedup(all));
    PermutationFacts(Dedup(all), cs);
    DistinctPermutation(Dedup(all), cs);
    forall i, j | 0 <= i < j < |cs| ensures Precedes(cs[i], cs[j]) {
      assert !StringOrder()(cs[j], cs[i]);
      CompareStrLaws(cs[i], cs[j]);
    }
    forall c ensures c in cs <==> exists l :: l in lines && l.currency == c {
      if c in cs {
        var i :| 0 <= i < |all| && all[i] == c;
        assert lines[i] in lines;
      }
      if l :| l in lines && l.currency == c {
        var i :| 0 <= i < |lines| && lines[i] == l;
        assert all[i] in all;
      }
    }
  }

  // The lines before those of the last currency, in a list that ascends by currency.
  function Others(currency: string): TaggedLine -> bool { (l: TaggedLine) => l.currency != currency }

  // A list whose matching elements all come last.
  lemma {:induction false} MatchesLast<T>(p: T -> bool, q: T -> bool, s: seq<T>)
    requires forall x :: x in s ==> q(x) == !p(x)
    requires forall i, j :: 0 <= i < j < |s| && p(s[i]) ==> p(s[j])
    ensures s == Filter(q, s) + Filter(p, s)
  {
    if s != [] {
      assert s == [s[0]] + s[1..];
      if p(s[0]) {
        forall x | x in s ensures p(x) { var i :| 0 <= i < |s| && s[i] == x; }
        FilterAllOrNone(p, s, true);
        FilterAllOrNone(q, s, false);
      } else {
        MatchesLast(p, q, s[1..]);
        FilterHead(p, s);
        FilterHead(q, s);
        ConcatAssociates([s[0]], Filter(q, s[1..]), Filter(p, s[1..]));
      }
    }
  }

  lemma LastCurrencyLast(lines: seq<TaggedLine>, last: string)
    requires ByCurrency(lines) && forall l :: l in lines ==> !Precedes(last, l.currency)
    ensures lines == Filter(Others(last), lines) + Filter(InCurrency(last), lines)
  {
    forall i, j | 0 <= i < j < |lines| && lines[i].currency == last ensures lines[j].currency == last {
      assert lines[j] in lines;
      CompareStrLaws(lines[j].currency, last);
    }
    MatchesLast(InCurrency(last), Others(last), lines);
  }

  lemma {:induction false} GroupingFiltered(lines: seq<TaggedLine>, last: string, currencies: seq<string>)
    requires last !in currencies
    ensures Grouped(Filter(Others(last), lines), currencies) == Grouped(lines, currencies)
  {
    if currencies != [] {
      var n := |currencies| - 1;
      assert currencies[n] in currencies;
      GroupingFiltered(lines, last, currencies[..n]);
      FilterFilter(InCurrency(currencies[n]), Others(last), lines);
    }
  }

  lemma {:induction false} KeptByCurrency(lines: seq<TaggedLine>, p: TaggedLine -> bool)
    requires ByCurrency(lines)
    ensures ByCurrency(Filter(p, lines))
    decreases |lines|
  {
    if lines != [] {
      KeptByCurrency(lines[1..], p);
      FilterMembers(p, lines[1..]);
      var rest := Filter(p, lines[1..]);
      forall j | 0 <= j < |rest| ensures !Precedes(rest[j].currency, lines[0].currency) {
        assert rest[j] in rest;
        var i :| 0 <= i < |lines[1..]| && lines[1..][i] == rest[j];
      }
    }
  }

  // Grouping lines that ascend by currency, currencies ascending, leaves them as they are.
  lemma {:induction false} GroupingIsIdentity(lines: seq<TaggedLine>, currencies: seq<string>)
    requires ByCurrency(lines) && StrictlyUp(currencies) && forall l :: l in lines ==> l.currency in currencies
    ensures Grouped(lines, currencies) == lines
    decreases |currencies|
  {
    if currencies == [] {
      FilterAllOrNone(InCurrency(""), lines, true);
      FilterAllOrNone(InCurrency(""), lines, false);
    } else {
      var n := |currencies| - 1;
      var last := currencies[n];
      forall i | 0 <= i <= n
        ensures !Precedes(last, currencies[i])
        ensures i < n ==> currencies[i] != last
      {
        CompareStrLaws(currencies[i], last);
      }
      assert currencies == currencies[..n] + [last];
      FilterMembers(Others(last), lines);
      KeptByCurrency(lines, Others(last));
      GroupingIsIdentity(Filter(Others(last), lines), currencies[..n]);
      GroupingFiltered(lines, last, currencies[..n]);
      LastCurrencyLast(lines, last);
    }
  }

  ghost predicate EntriesByCurrency(entries: seq<Entry>) {
    forall i, j :: 0 <= i < j < |entries| ==> !Precedes(entries[j].currency, entries[i].currency)
  }

  lemma SortedByCurrency(entries: seq<Entry>)
    ensures EntriesByCurrency(Sorted(entries))
  {
    EntryOrderComparator();
    SortOrdered(EntryOrder(), entries);
    var s := Sorted(entries);
    forall i, j | 0 <= i < j < |s| ensures !Precedes(s[j].currency, s[i].currency) {
      assert !EntryOrder()(s[j], s[i]);
    }
  }

  ghost predicate HasCurrency(entries: seq<Entry>, currency: string) {
    exists i :: 0 <= i < |entries| && entries[i].currency == currency
  }

  lemma HasCurrencyPush(init: seq<Entry>, e: Entry, currency: string)
    ensures HasCurrency(init + [e], currency) <==> HasCurrency(init, currency) || e.currency == currency
  {
    var entries := init + [e];
    if i :| 0 <= i < |init| && init[i].currency == currency { assert entries[i].currency == currency; }
    assert entries[|init|] == e;
  }

  lemma {:induction false} BuiltByCurrency(entries: seq<Entry>)
    requires NoneNegative(entries) && EntriesByCurrency(entries)
    ensures ByCurrency(Built(entries))
    ensures forall l :: l in Built(entries) ==> HasCurrency(entries, l.currency)
  {
    if entries != [] {
      var n := |entries| - 1;
      var init, e := entries[..n], entries[n];
      assert e in entries;
      BuiltByCurrency(init);
      NextLinesFacts(Numbered(init), e);
      CompareStrLaws(e.currency, e.currency);
      AppendByCurrency(Built(init), NextLines(Numbered(init), e), e.currency, init);
      assert entries == init + [e];
      forall l | l in Built(entries) ensures HasCurrency(entries, l.currency) {
        HasCurrencyPush(init, e, l.currency);
      }
    }
  }

  lemma AppendByCurrency(before: seq<TaggedLine>, mine: seq<TaggedLine>, currency: string, init: seq<Entry>)
    requires ByCurrency(before) && forall l :: l in before ==> HasCurrency(init, l.currency)
    requires forall i :: 0 <= i < |init| ==> !Precedes(currency, init[i].currency)
    requires (forall l :: l in mine ==> l.currency == currency) && !Precedes(currency, currency)
    ensures ByCurrency(before + mine)
  {
    var s := before + mine;
    forall i, j | 0 <= i < j < |s| ensures !Precedes(s[j].currency, s[i].currency) {
      if j >= |before| {
        assert s[j] in mine;
        if i < |before| {
          assert s[i] in before;
          var k :| 0 <= k < |init| && init[k].currency == s[i].currency;
        } else {
          assert s[i] in mine;
        }
      }
    }
  }

  // The order of the journal, then of the currencies, is one order: the lines are written in the
  // order of their numbers.
  lemma FileOrderIsNumberOrder(entries: seq<Entry>)
    requires NoneNegative(entries)
    ensures NoneNegative(Sorted(entries))
    ensures Grouped(Built(Sorted(entries)), CurrenciesOf(Built(Sorted(entries)))) == Built(Sorted(entries))
  {
    var sorted := Sorted(entries);
    PermutationFacts(sorted, entries);
    SortedByCurrency(entries);
    BuiltByCurrency(sorted);
    CurrenciesFacts(Built(sorted));
    GroupingIsIdentity(Built(sorted), CurrenciesOf(Built(sorted)));
  }
}
