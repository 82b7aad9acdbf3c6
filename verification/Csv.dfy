// Deterministic CSV (packages/exporters/src/csv.ts), and the reader of section 2 of RFC 4180, with LF
// line ends, that undoes it.

module Csv {
  import opened Text
  import opened Sequences
  import opened Money

  // ------------------------------------------------------------------ writing

  // A number is a real here; text is text.
  datatype CsvValue = Words(s: string) | Number(n: real)

  predicate IsWhole(n: real) { n == n.Floor as real }

  function TextOf(v: CsvValue): Option<string> {
    match v
    case Words(s) => Some(s)
    case Number(n) => if IsWhole(n) then Some(StringOf(n.Floor)) else None
  }

  // csv.ts:21.
  predicate FormulaLead(c: char) { c == '=' || c == '+' || c == '-' || c == '@' || c == '\t' || c == '\r' || c == '\n' }

  // csv.ts:22: the same shape as a decimal string.
  predicate IsNumeric(s: string) { Match(s).Some? }

  function Guarded(s: string): string {
    if s != "" && FormulaLead(s[0]) && !IsNumeric(s) then "'" + s else s
  }

  // What String.prototype.trim takes off.
  predicate IsBlank(c: char) {
    '\t' <= c <= '\r' || c == ' ' || c == '\U{A0}' || c == '\U{1680}' || '\U{2000}' <= c <= '\U{200A}'
    || c == '\U{2028}' || c == '\U{2029}' || c == '\U{202F}' || c == '\U{205F}' || c == '\U{3000}' || c == '\U{FEFF}'
  }

  predicate HasEdgeBlank(s: string) { s != "" && (IsBlank(s[0]) || IsBlank(s[|s| - 1])) }

  predicate IsDelimiter(c: char) { c == '"' || c == ',' || c == '\r' || c == '\n' }

  predicate NeedsQuotes(s: string) { (exists i :: 0 <= i < |s| && IsDelimiter(s[i])) || HasEdgeBlank(s) }

  // s.replace(/"/g, '""').
  function Doubled(s: string): string {
    if s == "" then "" else (if s[0] == '"' then "\"\"" else [s[0]]) + Doubled(s[1..])
  }

  function Quoted(s: string): string { if NeedsQuotes(s) then "\"" + Doubled(s) + "\"" else s }

  // csv.ts:24-48. None is the error of a non-integral number.
  method EscapeField(v: CsvValue) returns (r: Option<string>)
    ensures r == if TextOf(v).None? then None else Some(Quoted(Guarded(TextOf(v).value)))
  {
    var s: string;
    match v {
      case Number(n) =>
        if n != n.Floor as real { return None; }
        s := StringOf(n.Floor);
      case Words(text) =>
        s := text;
    }
    if |s| > 0 && FormulaLead(s[0]) && !IsNumeric(s) { s := "'" + s; }
    if (exists i :: 0 <= i < |s| && IsDelimiter(s[i])) || HasEdgeBlank(s) {
      return Some("\"" + Doubled(s) + "\"");
    }
    return Some(s);
  }

  function JoinWith(parts: seq<string>, sep: string): string {
    if parts == [] then "" else if |parts| == 1 then parts[0] else parts[0] + sep + JoinWith(parts[1..], sep)
  }

  function QuotedAll(cells: seq<string>): seq<string> { Map((s: string) => Quoted(s), cells) }

  // The text of every cell after the formula guard, None if some cell cannot be written.
  function CellsOf(row: seq<CsvValue>): Option<seq<string>> {
    if forall i :: 0 <= i < |row| ==> TextOf(row[i]).Some? then
      Some(seq(|row|, i requires 0 <= i < |row| => Guarded(TextOf(row[i]).value)))
    else None
  }

  function LineOf(cells: seq<string>): string { JoinWith(QuotedAll(cells), ",") }

  method WriteRow(row: seq<CsvValue>) returns (r: Option<string>)
    ensures r == if CellsOf(row).None? then None else Some(LineOf(CellsOf(row).value))
  {
    var fields: seq<string> := [];
    for i := 0 to |row|
      invariant |fields| == i
      invariant forall k :: 0 <= k < i ==> TextOf(row[k]).Some? && fields[k] == Quoted(Guarded(TextOf(row[k]).value))
    {
      var f := EscapeField(row[i]);
      if f.None? { return None; }
      fields := fields + [f.value];
    }
    assert fields == QuotedAll(CellsOf(row).value);
    return Some(JoinWith(fields, ","));
  }

  // The lines of the file, each ended by LF.
  function FileOf(rows: seq<seq<string>>): string {
    if rows == [] then "" else LineOf(rows[0]) + "\n" + FileOf(rows[1..])
  }

  lemma {:induction false} JoinedLines(lines: seq<string>)
    requires lines != []
    ensures JoinWith(lines, "\n") + "\n" == EndedLines(lines)
  {
    if |lines| > 1 {
      JoinedLines(lines[1..]);
      assert JoinWith(lines, "\n") + "\n" == lines[0] + "\n" + (JoinWith(lines[1..], "\n") + "\n");
    } else {
      assert lines[1..] == [];
      assert lines[0] + "\n" + EndedLines([]) == lines[0] + "\n";
    }
  }

  function EndedLines(lines: seq<string>): string {
    if lines == [] then "" else lines[0] + "\n" + EndedLines(lines[1..])
  }

  lemma {:induction false} FileOfLines(rows: seq<seq<string>>)
    ensures FileOf(rows) == EndedLines(LinesOf(rows))
  {
    if rows != [] {
      FileOfLines(rows[1..]);
      assert LinesOf(rows)[1..] == LinesOf(rows[1..]);
    }
  }

  predicate AllWritable(rows: seq<seq<CsvValue>>) { forall i :: 0 <= i < |rows| ==> CellsOf(rows[i]).Some? }

  function Body(rows: seq<seq<CsvValue>>): (t: seq<seq<string>>)
    requires AllWritable(rows)
    ensures |t| == |rows|
    ensures forall i :: 0 <= i < |rows| ==> t[i] == CellsOf(rows[i]).value
  {
    seq(|rows|, i requires 0 <= i < |rows| => CellsOf(rows[i]).value)
  }

  function GuardedAll(header: seq<string>): seq<string> { Map((s: string) => Guarded(s), header) }

  // The cells of the whole file, header first.
  function Table(header: seq<string>, rows: seq<seq<CsvValue>>): seq<seq<string>>
    requires AllWritable(rows)
  {
    [GuardedAll(header)] + Body(rows)
  }

  function LinesOf(t: seq<seq<string>>): seq<string> { Map((r: seq<string>) => LineOf(r), t) }

  lemma LinesOfTable(header: seq<string>, rows: seq<seq<CsvValue>>)
    requires AllWritable(rows)
    ensures LinesOf(Table(header, rows)) == [LineOf(GuardedAll(header))] + LinesOf(Body(rows))
  {
  }

  method WriteHeader(header: seq<string>) returns (line: string)
    ensures line == LineOf(GuardedAll(header))
  {
    var values := Map((s: string) => Words(s), header);
    var first := WriteRow(values);
    assert CellsOf(values).value == GuardedAll(header);
    return first.value;
  }

  method WriteBody(rows: seq<seq<CsvValue>>) returns (r: Option<seq<string>>)
    ensures r.Some? <==> AllWritable(rows)
    ensures r.Some? ==> r.value == LinesOf(Body(rows))
  {
    var lines: seq<string> := [];
    for i := 0 to |rows|
      invariant |lines| == i
      invariant forall k :: 0 <= k < i ==> CellsOf(rows[k]).Some? && lines[k] == LineOf(CellsOf(rows[k]).value)
    {
      var line := WriteRow(rows[i]);
      if line.None? { return None; }
      lines := lines + [line.value];
    }
    return Some(lines);
  }

  // csv.ts:50-54.
  method ToCsv(header: seq<string>, rows: seq<seq<CsvValue>>) returns (r: Option<string>)
    ensures r.Some? <==> AllWritable(rows)
    ensures r.Some? ==> r.value == FileOf(Table(header, rows))
  {
    var first := WriteHeader(header);
    var rest := WriteBody(rows);
    if rest.None? { return None; }
    var lines := [first] + rest.value;
    LinesOfTable(header, rows);
    FileOfLines(Table(header, rows));
    JoinedLines(lines);
    return Some(JoinWith(lines, "\n") + "\n");
  }

  // ------------------------------------------------------------------ reading

  // The rest of an escaped field, after its opening quote: doubled quotes are quotes, a single one
  // ends it.
  function ReadQuoted(s: string): (r: Option<(string, string)>)
    ensures r.Some? ==> |r.value.1| < |s|
  {
    if s == "" then None
    else if s[0] == '"' then
      if |s| > 1 && s[1] == '"' then
        var more := ReadQuoted(s[2..]);
        if more.None? then None else Some(("\"" + more.value.0, more.value.1))
      else Some(("", s[1..]))
    else
      var more := ReadQuoted(s[1..]);
      if more.None? then None else Some(([s[0]] + more.value.0, more.value.1))
  }

  // A non-escaped field: text up to a comma or a line end, with no quote or CR in it.
  function ReadBare(s: string): (r: Option<(string, string)>)
    ensures r.Some? ==> |r.value.1| <= |s|
  {
    if s == "" || s[0] == ',' || s[0] == '\n' then Some(("", s))
    else if s[0] == '"' || s[0] == '\r' then None
    else
      var more := ReadBare(s[1..]);
      if more.None? then None else Some(([s[0]] + more.value.0, more.value.1))
  }

  function ReadField(s: string): (r: Option<(string, string)>)
    ensures r.Some? ==> |r.value.1| <= |s|
  {
    if s != "" && s[0] == '"' then ReadQuoted(s[1..]) else ReadBare(s)
  }

  function ReadRecord(s: string): (r: Option<(seq<string>, string)>)
    ensures r.Some? ==> |r.value.1| <= |s|
    decreases |s|
  {
    var field := ReadField(s);
    if field.None? then None
    else
      var (cell, rest) := field.value;
      if rest != "" && rest[0] == ',' then
        var more := ReadRecord(rest[1..]);
        if more.None? then None else Some(([cell] + more.value.0, more.value.1))
      else Some(([cell], rest))
  }

  function Read(s: string): Option<seq<seq<string>>>
    decreases |s|
  {
    if s == "" then Some([])
    else
      var record := ReadRecord(s);
      if record.None? then None
      else
        var (cells, rest) := record.value;
        if rest == "" then Some([cells])
        else if rest[0] == '\n' then
          var more := Read(rest[1..]);
          if more.None? then None else Some([cells] + more.value)
        else None
  }

  // ------------------------------------------------------------------ reading undoes writing

  predicate EndsField(rest: string) { rest == "" || rest[0] == ',' || rest[0] == '\n' }

  lemma {:induction false} ReadDoubled(s: string, rest: string)
    requires EndsField(rest)
    ensures ReadQuoted(Doubled(s) + ("\"" + rest)) == Some((s, rest))
  {
    var end := "\"" + rest;
    var text := Doubled(s) + end;
    if s == "" {
      assert text == end && end[1..] == rest;
    } else {
      var more := Doubled(s[1..]) + end;
      ReadDoubled(s[1..], rest);
      assert s == [s[0]] + s[1..];
      if s[0] == '"' {
        assert text == "\"\"" + more;
        assert text[2..] == more;
      } else {
        assert text == [s[0]] + more;
        assert text[1..] == more;
      }
    }
  }

  lemma {:induction false} ReadPlain(s: string, rest: string)
    requires EndsField(rest) && forall i :: 0 <= i < |s| ==> !IsDelimiter(s[i])
    ensures ReadBare(s + rest) == Some((s, rest))
  {
    if s == "" {
      assert s + rest == rest;
    } else {
      ReadPlain(s[1..], rest);
      assert (s + rest)[1..] == s[1..] + rest && s == [s[0]] + s[1..];
    }
  }

  lemma ReadFieldBack(s: string, rest: string)
    requires EndsField(rest)
    ensures ReadField(Quoted(s) + rest) == Some((s, rest))
  {
    if NeedsQuotes(s) { ReadQuotedField(s, rest); } else { ReadPlainField(s, rest); }
  }

  lemma ReadQuotedField(s: string, rest: string)
    requires EndsField(rest)
    ensures ReadField("\"" + Doubled(s) + "\"" + rest) == Some((s, rest))
  {
    ReadDoubled(s, rest);
    OpenQuote(Doubled(s) + ("\"" + rest));
    Reassociate("\"", Doubled(s), "\"", rest);
  }

  lemma OpenQuote(body: string)
    ensures ReadField("\"" + body) == ReadQuoted(body)
  {
    assert ("\"" + body)[1..] == body;
  }

  lemma ReadPlainField(s: string, rest: string)
    requires EndsField(rest) && forall i :: 0 <= i < |s| ==> !IsDelimiter(s[i])
    ensures ReadField(s + rest) == Some((s, rest))
  {
    ReadPlain(s, rest);
    if s != "" { assert (s + rest)[0] == s[0]; } else { assert s + rest == rest; }
  }

  lemma LineOfStep(cells: seq<string>)
    requires |cells| > 1
    ensures LineOf(cells) == Quoted(cells[0]) + "," + LineOf(cells[1..])
  {
    assert QuotedAll(cells)[1..] == QuotedAll(cells[1..]);
  }

  lemma LineOfOne(cell: string)
    ensures LineOf([cell]) == Quoted(cell)
  {
    assert QuotedAll([cell]) == [Quoted(cell)];
  }

  lemma RecordStep(cell: string, more: string, cells: seq<string>, rest: string)
    requires ReadRecord(more) == Some((cells, rest))
    ensures ReadRecord(Quoted(cell) + ("," + more)) == Some(([cell] + cells, rest))
  {
    ReadFieldBack(cell, "," + more);
    assert ("," + more)[1..] == more;
  }

  lemma {:induction false} ReadRecordBack(cells: seq<string>, rest: string)
    requires cells != [] && (rest == "" || rest[0] == '\n')
    ensures ReadRecord(LineOf(cells) + rest) == Some((cells, rest))
    decreases |cells|
  {
    if |cells| == 1 {
      assert cells == [cells[0]];
      LineOfOne(cells[0]);
      ReadFieldBack(cells[0], rest);
    } else {
      LineOfStep(cells);
      ReadRecordBack(cells[1..], rest);
      RecordStep(cells[0], LineOf(cells[1..]) + rest, cells[1..], rest);
      Reassociate(Quoted(cells[0]), ",", LineOf(cells[1..]), rest);
      assert cells == [cells[0]] + cells[1..];
    }
  }

  lemma Reassociate(a: string, b: string, c: string, d: string)
    ensures a + b + c + d == a + (b + (c + d))
  {
  }

  // What a reader makes of a row: one with no cells is an empty line, read as one empty cell.
  function Seen(cells: seq<string>): seq<string> { if cells == [] then [""] else cells }

  lemma ReadLineBack(cells: seq<string>, rest: string)
    requires rest == "" || rest[0] == '\n'
    ensures ReadRecord(LineOf(cells) + rest) == Some((Seen(cells), rest))
  {
    if cells == [] {
      LineOfOne("");
      assert LineOf([]) == LineOf([""]);
    }
    ReadRecordBack(Seen(cells), rest);
  }

  lemma {:induction false} ReadBack(rows: seq<seq<string>>)
    ensures Read(FileOf(rows)) == Some(Map((r: seq<string>) => Seen(r), rows))
  {
    if rows != [] {
      var rest := "\n" + FileOf(rows[1..]);
      ReadBack(rows[1..]);
      assert FileOf(rows) == LineOf(rows[0]) + rest;
      ReadLineBack(rows[0], rest);
      assert rest[1..] == FileOf(rows[1..]);
      assert Map((r: seq<string>) => Seen(r), rows) == [Seen(rows[0])] + Map((r: seq<string>) => Seen(r), rows[1..]);
    }
  }

  // A reader recovers every row and every cell after the guard, whatever the cells hold - exactly
  // when no row is without cells: such a row is written as an empty line, which reads as one cell.
  lemma FileReadsBack(header: seq<string>, rows: seq<seq<CsvValue>>)
    requires AllWritable(rows)
    ensures Read(FileOf(Table(header, rows))) == Some(Map((r: seq<string>) => Seen(r), Table(header, rows)))
    ensures Read(FileOf(Table(header, rows))) == Some(Table(header, rows))
       <==> header != [] && forall i :: 0 <= i < |rows| ==> rows[i] != []
  {
    ReadBack(Table(header, rows));
    SeenSame(Table(header, rows));
    NoRowEmpty(header, rows);
  }

  lemma NoRowEmpty(header: seq<string>, rows: seq<seq<CsvValue>>)
    requires AllWritable(rows)
    ensures (forall k :: 0 <= k < |Table(header, rows)| ==> Table(header, rows)[k] != [])
       <==> header != [] && forall i :: 0 <= i < |rows| ==> rows[i] != []
  {
    RowAt(header, rows, 0);
    if k :| 0 <= k < |Table(header, rows)| && Table(header, rows)[k] == [] { RowAt(header, rows, k); }
    if i :| 0 <= i < |rows| && rows[i] == [] { RowAt(header, rows, i + 1); }
  }

  lemma RowAt(header: seq<string>, rows: seq<seq<CsvValue>>, k: nat)
    requires AllWritable(rows) && k <= |rows|
    ensures |Table(header, rows)| == |rows| + 1
    ensures |Table(header, rows)[k]| == if k == 0 then |header| else |rows[k - 1]|
  {
  }

  lemma SeenSame(t: seq<seq<string>>)
    ensures Map((r: seq<string>) => Seen(r), t) == t <==> forall k :: 0 <= k < |t| ==> t[k] != []
  {
    var seen := Map((r: seq<string>) => Seen(r), t);
    if k :| 0 <= k < |t| && t[k] == [] { assert seen[k] != t[k]; }
  }

  // ------------------------------------------------------------------ the guard

  // A signed number of digits, with or without a fraction.
  ghost predicate Numeral(s: string) { exists whole, frac :: Spells(s, whole, frac) }

  predicate Spells(s: string, whole: string, frac: string) {
    && whole != "" && (forall i :: 0 <= i < |whole| ==> '0' <= whole[i] <= '9')
    && (forall i :: 0 <= i < |frac| ==> '0' <= frac[i] <= '9')
    && (s == whole || s == "-" + whole || (frac != "" && (s == whole + "." + frac || s == "-" + whole + "." + frac)))
  }

  // What a spreadsheet would evaluate: text behind an operator or a control character that is no number.
  ghost predicate StartsFormula(s: string) {
    && s != "" && !Numeral(s)
    && (s[0] == '=' || s[0] == '+' || s[0] == '-' || s[0] == '@' || s[0] == '\t' || s[0] == '\r' || s[0] == '\n')
  }

  lemma NumericSpells(s: string)
    requires IsNumeric(s)
    ensures Numeral(s)
  {
    ShowMatch(s);
    var p := Match(s).value;
    if p.neg && p.frac != "" { assert s == "-" + p.whole + "." + p.frac; }
    assert Spells(s, p.whole, p.frac);
  }

  lemma ShownMatches(s: string, p: Parts)
    requires WellFormed(p) && s == Show(p)
    ensures IsNumeric(s)
  {
    MatchShow(p);
  }

  lemma SignFirst(a: string, b: string)
    ensures "-" + a + "." + b == "-" + (a + "." + b)
  {
  }

  lemma SpellsMatches(s: string, whole: string, frac: string)
    requires Spells(s, whole, frac)
    ensures IsNumeric(s)
  {
    SignFirst(whole, frac);
    if s == whole {
      ShownMatches(s, Parts(false, whole, ""));
    } else if s == "-" + whole {
      ShownMatches(s, Parts(true, whole, ""));
    } else if s == whole + "." + frac {
      ShownMatches(s, Parts(false, whole, frac));
    } else {
      ShownMatches(s, Parts(true, whole, frac));
    }
  }

  lemma NumericIsNumeral(s: string)
    ensures IsNumeric(s) <==> Numeral(s)
  {
    if IsNumeric(s) { NumericSpells(s); }
    if whole, frac :| Spells(s, whole, frac) { SpellsMatches(s, whole, frac); }
  }

  // The guard puts an apostrophe before exactly the cells that would start a formula, and none that it
  // wrote does.
  lemma GuardNeutralizes(s: string)
    ensures Guarded(s) == if StartsFormula(s) then "'" + s else s
    ensures !StartsFormula(Guarded(s))
  {
    NumericIsNumeral(s);
  }

  // The usual blanks.
  predicate TrimmedAway(c: char) {
    c == ' ' || c == '\t' || c == '\n' || c == '\r' || c == '\U{B}' || c == '\U{C}' || c == '\U{A0}' || c == '\U{FEFF}'
  }

  // A cell written without quotes has no delimiter and no blank at either end, so that no reader trims it.
  lemma QuotesKeepEdges(s: string)
    requires Quoted(s) == s && s != ""
    ensures forall i :: 0 <= i < |s| ==> s[i] != '"' && s[i] != ',' && s[i] != '\n' && s[i] != '\r'
    ensures !TrimmedAway(s[0]) && !TrimmedAway(s[|s| - 1])
  {
    DoubledLonger(s);
  }

  lemma {:induction false} DoubledLonger(s: string)
    ensures |Doubled(s)| >= |s|
  {
    if s != "" { DoubledLonger(s[1..]); }
  }

  // The guard loses one thing: whether the apostrophe was in the cell already.
  lemma GuardConfuses(s: string, t: string)
    requires s != t
    ensures Guarded(s) == Guarded(t) <==> (Guarded(s) != s && t == "'" + s) || (Guarded(t) != t && s == "'" + t)
  {
    if Guarded(s) != s && Guarded(t) != t {
      assert Guarded(s)[1..] == s && Guarded(t)[1..] == t;
    }
    if Guarded(s) != s && t == "'" + s { assert t[0] == '\''; }
    if Guarded(t) != t && s == "'" + t { assert s[0] == '\''; }
  }
}
