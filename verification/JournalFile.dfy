// The rendered journal-draft file (packages/exporters/src/journal-drafts.ts:113-220).

module JournalFile {
  import opened Text
  import opened Sequences
  import opened JournalDrafts
  import opened Csv
  import opened Money

  datatype Target = Qbo | Xero

  datatype Draft = Draft(lines: seq<TaggedLine>, residues: seq<(string, int)>, unmapped: set<Category>, content: string)

  const QBO_HEADER := ["*JournalNo", "*JournalDate", "*AccountName", "Debits", "Credits", "Description", "Currency"]
  const XERO_HEADER := ["*Narration", "*Date", "*AccountCode", "*Description", "Debit", "Credit", "Currency"]
  const BANNER := "DRAFT \U{2014} REVIEW REQUIRED"

  function HeaderOf(target: Target): seq<string> { if target == Qbo then QBO_HEADER else XERO_HEADER }

  function DefaultAccount(c: Category): string {
    match c
    case CryptoAsset => "Crypto Assets"
    case AccountsReceivable => "Accounts Receivable"
    case AccountsPayable => "Accounts Payable"
    case VatOutput => "VAT Output"
    case VatInput => "VAT Input"
  }

  predicate IsMapped(mapping: map<Category, string>, c: Category) { c in mapping && mapping[c] != "" }

  function AccountFor(mapping: map<Category, string>, c: Category): string {
    if IsMapped(mapping, c) then mapping[c] else DefaultAccount(c)
  }

  function CentParts(cents: int): Parts {
    Parts(cents < 0, Digits(Abs(cents) / 100), [CharOf(Abs(cents) / 10 % 10), CharOf(Abs(cents) % 10)])
  }

  // Cents with two places, as toFixed(2) prints them.
  function TwoPlaces(cents: int): string { Show(CentParts(cents)) }

  // The printed amount is a decimal string of exactly these cents.
  lemma TwoPlacesReadsBack(cents: int)
    ensures ParseUnits(TwoPlaces(cents), 2) == Ok(cents)
  {
    MatchShow(CentParts(cents));
    CentMagnitude(Abs(cents));
    assert CentParts(cents).whole + CentParts(cents).frac + Zeros(0) == CentParts(cents).whole + CentParts(cents).frac;
  }

  lemma CentMagnitude(n: nat)
    ensures Value(Digits(n / 100) + [CharOf(n / 10 % 10), CharOf(n % 10)]) == n
  {
    ValueDigits(n / 100);
    ValueConcat(Digits(n / 100), [CharOf(n / 10 % 10), CharOf(n % 10)]);
    TwoDigits(n / 10 % 10, n % 10);
  }

  lemma TwoDigits(a: nat, b: nat)
    requires a < 10 && b < 10
    ensures Value([CharOf(a), CharOf(b)]) == 10 * a + b && Pow10(2) == 100
  {
    var s := [CharOf(a), CharOf(b)];
    assert Pow10(0) == 1 && Pow10(1) == 10 && Pow10(2) == 100;
    assert s[1..] == [CharOf(b)] && s[1..][1..] == [];
    assert Value(s[1..]) == b * Pow10(0) + Value([]);
    assert Value(s) == a * Pow10(1) + Value(s[1..]);
  }

  function RowOf(target: Target, l: TaggedLine, account: string): seq<CsvValue> {
    match target
    case Qbo => [Words(Digits(l.journalNo)), Words(l.date), Words(account), Words(TwoPlaces(l.debit)),
                 Words(TwoPlaces(l.credit)),
                 Words(l.description), Words(l.currency)]
    case Xero => [Words("#" + Digits(l.journalNo) + " " + l.description), Words(l.date), Words(account),
                  Words(l.description),
                  Words(TwoPlaces(l.debit)), Words(TwoPlaces(l.credit)), Words(l.currency)]
  }

  const BANNER_ROW := [Words(BANNER), Words(""), Words(""), Words(""), Words(""), Words(""), Words("")]

  function Row(target: Target, mapping: map<Category, string>): TaggedLine -> seq<CsvValue> {
    (l: TaggedLine) => RowOf(target, l, AccountFor(mapping, l.category))
  }

  function BodyOf(target: Target, lines: seq<TaggedLine>, mapping: map<Category, string>): seq<seq<CsvValue>> {
    [BANNER_ROW] + Map(Row(target, mapping), lines)
  }

  function Unmapped(lines: seq<TaggedLine>, mapping: map<Category, string>): set<Category> {
    set i | 0 <= i < |lines| && !IsMapped(mapping, lines[i].category) :: lines[i].category
  }

  lemma UnmappedPush(lines: seq<TaggedLine>, l: TaggedLine, mapping: map<Category, string>)
    ensures Unmapped(lines + [l], mapping) ==
            Unmapped(lines, mapping) + if IsMapped(mapping, l.category) then {} else {l.category}
  {
    var all := lines + [l];
    assert all[|lines|] == l;
    forall c | c in Unmapped(lines, mapping) ensures c in Unmapped(all, mapping) {
      var i :| 0 <= i < |lines| && !IsMapped(mapping, lines[i].category) && lines[i].category == c;
      assert all[i] == lines[i];
    }
  }

  function ZeroResidues(currencies: seq<string>): seq<(string, int)> { Map((c: string) => (c, 0), currencies) }

  // journal-drafts.ts:141-157. None is the divergence error.
  method OrderByCurrency(built: seq<TaggedLine>, currencies: seq<string>)
      returns (r: Option<(seq<TaggedLine>, seq<(string, int)>)>)
    ensures r.Some? <==> forall c :: c in currencies ==> Residue(built, c) == 0
    ensures r.Some? ==> r.value == (Grouped(built, currencies), ZeroResidues(currencies))
  {
    var ordered: seq<TaggedLine> := [];
    var residues: seq<(string, int)> := [];
    for i := 0 to |currencies|
      invariant forall c :: c in currencies[..i] ==> Residue(built, c) == 0
      invariant ordered == Grouped(built, currencies[..i])
      invariant residues == ZeroResidues(currencies[..i])
    {
      assert currencies[..i + 1] == currencies[..i] + [currencies[i]];
      var group := Filter(InCurrency(currencies[i]), built);
      var residue := Debits(group) - Credits(group);
      if residue != 0 {
        assert Residue(built, currencies[i]) != 0;
        return None;
      }
      ordered := ordered + group;
      residues := residues + [(currencies[i], residue)];
    }
    assert currencies[..|currencies|] == currencies;
    return Some((ordered, residues));
  }

  function AccountOf(mapping: map<Category, string>): TaggedLine -> string {
    (l: TaggedLine) => AccountFor(mapping, l.category)
  }

  // journal-drafts.ts:161-166: the mapped account, or the default, which is noted.
  method ResolveAccount(mapping: map<Category, string>, category: Category, unmapped: set<Category>)
    returns (account: string, unmapped': set<Category>)
    ensures account == AccountFor(mapping, category)
    ensures unmapped' == unmapped + if IsMapped(mapping, category) then {} else {category}
  {
    if category in mapping && mapping[category] != "" { return mapping[category], unmapped; }
    return DefaultAccount(category), unmapped + {category};
  }

  method ResolveAccounts(lines: seq<TaggedLine>, mapping: map<Category, string>)
      returns (accounts: seq<string>, unmapped: set<Category>)
    ensures accounts == Map(AccountOf(mapping), lines)
    ensures unmapped == Unmapped(lines, mapping)
  {
    accounts := [];
    unmapped := {};
    for i := 0 to |lines|
      invariant accounts == Map(AccountOf(mapping), lines[..i])
      invariant unmapped == Unmapped(lines[..i], mapping)
    {
      var account;
      account, unmapped := ResolveAccount(mapping, lines[i].category, unmapped);
      accounts := accounts + [account];
      assert lines[..i + 1] == lines[..i] + [lines[i]];
      UnmappedPush(lines[..i], lines[i], mapping);
    }
    assert lines[..|lines|] == lines;
  }

  // journal-drafts.ts:168-181.
  method ResolveRows(target: Target, lines: seq<TaggedLine>, mapping: map<Category, string>)
    returns (body: seq<seq<CsvValue>>, unmapped: set<Category>)
    ensures body == BodyOf(target, lines, mapping)
    ensures unmapped == Unmapped(lines, mapping)
  {
    var accounts;
    accounts, unmapped := ResolveAccounts(lines, mapping);
    var rows := seq(|lines|, i requires 0 <= i < |lines| => RowOf(target, lines[i], accounts[i]));
    assert rows == Map(Row(target, mapping), lines);
    body := [BANNER_ROW] + rows;
  }

  lemma RowsWritable(target: Target, lines: seq<TaggedLine>, mapping: map<Category, string>)
    ensures AllWritable(BodyOf(target, lines, mapping))
    ensures forall i :: 0 <= i < |BodyOf(target, lines, mapping)| ==> |BodyOf(target, lines, mapping)[i]| == 7
  {
    var body := BodyOf(target, lines, mapping);
    forall i | 0 <= i < |body| ensures |body[i]| == 7 && CellsOf(body[i]).Some? {
      if i > 0 { assert body[i] == Row(target, mapping)(lines[i - 1]); }
    }
  }

  // The only error is a negative gross. The lines are those of the sorted entries, numbered; every
  // reported residue is zero; the categories reported unmapped are those that fell back.
  method RenderJournalDrafts(target: Target, entries: seq<Entry>, mapping: map<Category, string>)
      returns (r: Option<Draft>)
    ensures r.Some? <==> NoneNegative(entries)
    ensures r.Some? ==>
      && r.value.lines == Built(Sorted(entries))
      && r.value.residues == ZeroResidues(CurrenciesOf(r.value.lines))
      && r.value.unmapped == Unmapped(r.value.lines, mapping)
      && AllWritable(BodyOf(target, r.value.lines, mapping))
      && r.value.content == FileOf(Table(HeaderOf(target), BodyOf(target, r.value.lines, mapping)))
  {
    var sorted := Sorted(entries);
    PermutationFacts(sorted, entries);
    var built := BuildLines(sorted);
    if built.None? { return None; }
    var currencies := CurrenciesOf(built.value);
    var ordered := OrderByCurrency(built.value, currencies);
    forall c | c in currencies ensures Residue(built.value, c) == 0 { CurrencyBalances(sorted, c); }
    FileOrderIsNumberOrder(entries);
    var body, unmapped := ResolveRows(target, ordered.value.0, mapping);
    RowsWritable(target, ordered.value.0, mapping);
    var content := ToCsv(HeaderOf(target), body);
    return Some(Draft(ordered.value.0, ordered.value.1, unmapped, content.value));
  }

  // A reader of the file gets the header, the banner and one row of seven cells for each line, as
  // they were after the guard.
  lemma FileRecovered(target: Target, lines: seq<TaggedLine>, mapping: map<Category, string>)
    ensures AllWritable(BodyOf(target, lines, mapping))
    ensures var t := Table(HeaderOf(target), BodyOf(target, lines, mapping));
      Read(FileOf(t)) == Some(t) && |t| == |lines| + 2
  {
    RowsWritable(target, lines, mapping);
    FileReadsBack(HeaderOf(target), BodyOf(target, lines, mapping));
    var body := BodyOf(target, lines, mapping);
    forall i | 0 <= i < |body| ensures body[i] != [] { assert |body[i]| == 7; }
    assert HeaderOf(target) != [];
  }
}
