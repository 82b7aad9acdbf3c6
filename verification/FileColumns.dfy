// What a reader of the journal-draft file finds under each heading
// (packages/exporters/src/journal-drafts.ts:29-39, 159-181).

module FileColumns {
  import opened Text
  import opened JournalDrafts
  import opened Csv
  import opened Money
  import opened JournalFile

  // A cell that shows a text: behind an apostrophe if it would start a formula.
  ghost predicate Shows(cell: string, text: string) {
    cell == if StartsFormula(text) then "'" + text else text
  }

  // The account of a category: the mapped one, unless it is empty, or the default.
  predicate IsAccount(name: string, mapping: map<Category, string>, c: Category) {
    if c in mapping && mapping[c] != "" then name == mapping[c]
    else
      && (c == CryptoAsset ==> name == "Crypto Assets")
      && (c == AccountsReceivable ==> name == "Accounts Receivable")
      && (c == AccountsPayable ==> name == "Accounts Payable")
      && (c == VatOutput ==> name == "VAT Output")
      && (c == VatInput ==> name == "VAT Input")
  }

  ghost predicate ShowsAccount(cell: string, mapping: map<Category, string>, c: Category) {
    exists name :: IsAccount(name, mapping, c) && Shows(cell, name)
  }

  // The columns the two programs know, by their headings.
  datatype Column = DebitColumn | CreditColumn | NumberColumn | NarrationColumn | DateColumn | AccountColumn
    | TextColumn | CurrencyColumn

  function ColumnOf(heading: string): Option<Column> {
    if heading == "Debits" || heading == "Debit" then Some(DebitColumn)
    else if heading == "Credits" || heading == "Credit" then Some(CreditColumn)
    else if heading == "*JournalNo" then Some(NumberColumn)
    else if heading == "*Narration" then Some(NarrationColumn)
    else if heading == "*JournalDate" || heading == "*Date" then Some(DateColumn)
    else if heading == "*AccountName" || heading == "*AccountCode" then Some(AccountColumn)
    else if heading == "Description" || heading == "*Description" then Some(TextColumn)
    else if heading == "Currency" then Some(CurrencyColumn)
    else None
  }

  // What a cell says of its line is told by the heading it stands under.
  ghost predicate CellTells(column: Option<Column>, cell: string, l: TaggedLine, mapping: map<Category, string>) {
    match column
    case None => false
    case Some(DebitColumn) => ParseUnits(cell, 2) == Ok(l.debit)
    case Some(CreditColumn) => ParseUnits(cell, 2) == Ok(l.credit)
    case Some(NumberColumn) => IsDecimal(cell) && Value(cell) == l.journalNo
    case Some(NarrationColumn) => Shows(cell, "#" + Digits(l.journalNo) + " " + l.description)
    case Some(DateColumn) => Shows(cell, l.date)
    case Some(AccountColumn) => ShowsAccount(cell, mapping, l.category)
    case Some(TextColumn) => Shows(cell, l.description)
    case Some(CurrencyColumn) => Shows(cell, l.currency)
  }

  ghost predicate RowTells(header: seq<string>, row: seq<string>, l: TaggedLine, mapping: map<Category, string>) {
    |row| == |header| && forall c :: 0 <= c < |header| ==> CellTells(ColumnOf(header[c]), row[c], l, mapping)
  }

  // The headings the two programs import by.
  predicate HasHeadings(target: Target, header: seq<string>) {
    match target
    case Qbo =>
      header == ["*JournalNo", "*JournalDate", "*AccountName", "Debits", "Credits", "Description", "Currency"]
    case Xero =>
      header == ["*Narration", "*Date", "*AccountCode", "*Description", "Debit", "Credit", "Currency"]
  }

  predicate IsBanner(row: seq<string>) {
    |row| == 7 && row[0] == "DRAFT \U{2014} REVIEW REQUIRED" && forall c :: 1 <= c < 7 ==> row[c] == ""
  }

  // The file: headings, a banner, then a row for each line.
  ghost predicate FileTells(target: Target, content: string, lines: seq<TaggedLine>, mapping: map<Category, string>) {
    && Read(content).Some?
    && var t := Read(content).value;
       && |t| == |lines| + 2 && HasHeadings(target, t[0]) && IsBanner(t[1])
       && forall i :: 0 <= i < |lines| ==> RowTells(t[0], t[i + 2], lines[i], mapping)
  }

  lemma TextCell(s: string)
    ensures Shows(Guarded(s), s)
  {
    GuardNeutralizes(s);
  }

  lemma AmountCell(cents: int)
    ensures ParseUnits(Guarded(TwoPlaces(cents)), 2) == Ok(cents)
  {
    TwoPlacesReadsBack(cents);
    MatchShow(CentParts(cents));
  }

  lemma NumberCell(n: nat)
    ensures IsDecimal(Guarded(Digits(n))) && Value(Guarded(Digits(n))) == n
  {
    ValueDigits(n);
    assert IsDigit(Digits(n)[0]);
  }

  lemma AccountCell(mapping: map<Category, string>, c: Category)
    ensures ShowsAccount(Guarded(AccountFor(mapping, c)), mapping, c)
  {
    TextCell(AccountFor(mapping, c));
    assert IsAccount(AccountFor(mapping, c), mapping, c);
  }

  const QBO_COLUMNS := [NumberColumn, DateColumn, AccountColumn, DebitColumn, CreditColumn, TextColumn, CurrencyColumn]
  const XERO_COLUMNS :=
    [NarrationColumn, DateColumn, AccountColumn, TextColumn, DebitColumn, CreditColumn, CurrencyColumn]

  lemma QboColumns(c: nat)
    requires c < 7
    ensures ColumnOf(QBO_HEADER[c]) == Some(QBO_COLUMNS[c])
  {
  }

  lemma XeroColumns(c: nat)
    requires c < 7
    ensures ColumnOf(XERO_HEADER[c]) == Some(XERO_COLUMNS[c])
  {
  }

  // The text that goes into a column, before the guard.
  function ColumnText(column: Column, l: TaggedLine, account: string): string {
    match column
    case DebitColumn => TwoPlaces(l.debit)
    case CreditColumn => TwoPlaces(l.credit)
    case NumberColumn => Digits(l.journalNo)
    case NarrationColumn => "#" + Digits(l.journalNo) + " " + l.description
    case DateColumn => l.date
    case AccountColumn => account
    case TextColumn => l.description
    case CurrencyColumn => l.currency
  }

  lemma ColumnTells(column: Column, l: TaggedLine, mapping: map<Category, string>)
    ensures CellTells(Some(column), Guarded(ColumnText(column, l, AccountFor(mapping, l.category))), l, mapping)
  {
    match column
    case DebitColumn => AmountCell(l.debit);
    case CreditColumn => AmountCell(l.credit);
    case NumberColumn => NumberCell(l.journalNo);
    case NarrationColumn => TextCell("#" + Digits(l.journalNo) + " " + l.description);
    case DateColumn => TextCell(l.date);
    case AccountColumn => AccountCell(mapping, l.category);
    case TextColumn => TextCell(l.description);
    case CurrencyColumn => TextCell(l.currency);
  }

  function ColumnsOf(target: Target): seq<Column> { if target == Qbo then QBO_COLUMNS else XERO_COLUMNS }

  lemma RowText(target: Target, l: TaggedLine, account: string, c: nat)
    requires c < 7
    ensures |RowOf(target, l, account)| == 7 == |ColumnsOf(target)|
    ensures RowOf(target, l, account)[c] == Words(ColumnText(ColumnsOf(target)[c], l, account))
  {
  }

  lemma RowCell(cells: seq<CsvValue>, row: seq<string>, c: nat, text: string)
    requires CellsOf(cells) == Some(row) && c < |cells| && cells[c] == Words(text)
    ensures |row| == |cells| && row[c] == Guarded(text)
  {
  }

  lemma Heading(target: Target, c: nat)
    requires c < 7
    ensures |HeaderOf(target)| == 7 == |ColumnsOf(target)|
    ensures ColumnOf(HeaderOf(target)[c]) == Some(ColumnsOf(target)[c])
  {
    if target == Qbo { QboColumns(c); } else { XeroColumns(c); }
  }

  lemma CellOfLine(target: Target, l: TaggedLine, mapping: map<Category, string>, row: seq<string>, c: nat)
    requires CellsOf(RowOf(target, l, AccountFor(mapping, l.category))) == Some(row) && c < 7
    ensures |row| == 7 == |HeaderOf(target)| && CellTells(ColumnOf(HeaderOf(target)[c]), row[c], l, mapping)
  {
    var account := AccountFor(mapping, l.category);
    Heading(target, c);
    RowText(target, l, account, c);
    var column := ColumnsOf(target)[c];
    RowCell(RowOf(target, l, account), row, c, ColumnText(column, l, account));
    ColumnTells(column, l, mapping);
  }

  lemma LineRowTells(target: Target, l: TaggedLine, mapping: map<Category, string>, row: seq<string>)
    requires CellsOf(RowOf(target, l, AccountFor(mapping, l.category))) == Some(row)
    ensures RowTells(HeaderOf(target), row, l, mapping)
  {
    CellOfLine(target, l, mapping, row, 0);
    var header := HeaderOf(target);
    forall c | 0 <= c < |header| ensures CellTells(ColumnOf(header[c]), row[c], l, mapping) {
      CellOfLine(target, l, mapping, row, c);
    }
  }

  lemma PlainHeading(target: Target, c: nat)
    requires c < 7
    ensures |HeaderOf(target)| == 7 && Guarded(HeaderOf(target)[c]) == HeaderOf(target)[c]
  {
    var heading := HeaderOf(target)[c];
    assert heading[0] == '*' || heading[0] == 'D' || heading[0] == 'C';
  }

  lemma HeaderCells(target: Target)
    ensures GuardedAll(HeaderOf(target)) == HeaderOf(target)
  {
    var header := HeaderOf(target);
    forall c | 0 <= c < |header| ensures GuardedAll(header)[c] == header[c] {
      PlainHeading(target, c);
    }
  }

  // Whoever reads the file finds under each heading, by its name, what it names of the line: debits
  // under debits and credits under credits to the cent, each line's own number, date, account, text and
  // currency.
  lemma FileTellsLines(target: Target, lines: seq<TaggedLine>, mapping: map<Category, string>, content: string)
    requires AllWritable(BodyOf(target, lines, mapping))
    requires content == FileOf(Table(HeaderOf(target), BodyOf(target, lines, mapping)))
    ensures FileTells(target, content, lines, mapping)
  {
    FileRecovered(target, lines, mapping);
    var body := BodyOf(target, lines, mapping);
    var t := Table(HeaderOf(target), body);
    HeadOfFile(target, lines, mapping);
    forall i | 0 <= i < |lines| ensures RowTells(HeaderOf(target), t[i + 2], lines[i], mapping) {
      LineOfFile(target, lines, mapping, i);
      LineRowTells(target, lines[i], mapping, t[i + 2]);
    }
  }

  lemma HeadOfFile(target: Target, lines: seq<TaggedLine>, mapping: map<Category, string>)
    requires AllWritable(BodyOf(target, lines, mapping))
    ensures var t := Table(HeaderOf(target), BodyOf(target, lines, mapping));
      && |t| == |lines| + 2 && t[0] == HeaderOf(target) && HasHeadings(target, t[0]) && IsBanner(t[1])
  {
    HeaderCells(target);
    var t := Table(HeaderOf(target), BodyOf(target, lines, mapping));
    assert t[1] == CellsOf(BANNER_ROW).value;
    BannerCells();
  }

  lemma BannerCells()
    ensures CellsOf(BANNER_ROW).Some? && IsBanner(CellsOf(BANNER_ROW).value)
  {
    assert BANNER[0] == 'D' && Guarded(BANNER) == BANNER && Guarded("") == "";
    assert forall c :: 0 <= c < 7 ==> BANNER_ROW[c] == Words(if c == 0 then BANNER else "");
  }

  lemma LineOfFile(target: Target, lines: seq<TaggedLine>, mapping: map<Category, string>, i: nat)
    requires AllWritable(BodyOf(target, lines, mapping)) && i < |lines|
    ensures var t := Table(HeaderOf(target), BodyOf(target, lines, mapping));
      && |t| == |lines| + 2
      && CellsOf(RowOf(target, lines[i], AccountFor(mapping, lines[i].category))) == Some(t[i + 2])
  {
    var body := BodyOf(target, lines, mapping);
    assert body[i + 1] == Row(target, mapping)(lines[i]);
  }

  // The rendered file itself, and who posts what in it: each line is one of a numbered entry.
  method RenderedFileTells(target: Target, entries: seq<Entry>, mapping: map<Category, string>)
      returns (r: Option<Draft>)
    ensures r.Some? <==> NoneNegative(entries)
    ensures r.Some? ==> FileTells(target, r.value.content, r.value.lines, mapping)
  {
    r := RenderJournalDrafts(target, entries, mapping);
    if r.Some? { FileTellsLines(target, r.value.lines, mapping, r.value.content); }
  }
}
