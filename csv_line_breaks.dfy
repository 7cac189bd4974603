/** The file-level limit of the CSV round trip: `parseCSV` cuts the text into
    lines at every newline before it looks at quotes, while the export quotes
    a memo that holds a newline and writes it as it is. A memo with a line
    break therefore comes back as two lines, the second of which the import
    rejects. */
module CsvLineBreaks {
  import opened Text
  import opened Dates
  import opened Ledger
  import opened CsvExport
  import opened CsvImport
  import opened CsvRoundTrip

  /** Exporting a transaction whose memo is `a`, a line break, `b` — and which
      is otherwise portable — gives a file whose import reports line 3, the
      memo's tail `b"`, as having one column where the header has five. */
  lemma NewlineMemoBreaksImport(cats: seq<Category>, t: Transaction)
    requires HasCategory(cats, t.categoryId) && IsTransactionType(t.kind)
    requires IsCalendarDate(t.date) && 0 <= t.date.year <= 9999
    requires Plain(CategoryName(cats, t)) && '\n' !in CategoryName(cats, t)
    requires t.memo == "a\nb"
    ensures ParseCsvSpec(ExportText(cats, [t])).errors != []
    ensures RowError(3, ColumnCount(1, 5)) in ParseCsvSpec(ExportText(cats, [t])).errors
  {
    var head := BrokenRow(cats, t);
    SplitFile(cats, t, head);
    TailRejected(ExportText(cats, [t]), head);
  }

  /** The exported row is a line ending in `,"a`, a line break, and `b"`. */
  lemma BrokenRow(cats: seq<Category>, t: Transaction) returns (head: string)
    requires HasCategory(cats, t.categoryId) && IsTransactionType(t.kind)
    requires IsCalendarDate(t.date) && 0 <= t.date.year <= 9999
    requires Plain(CategoryName(cats, t)) && '\n' !in CategoryName(cats, t)
    requires t.memo == "a\nb"
    ensures '\n' !in head
    ensures ExportRow(t, CategoryName(cats, t)) == head + "\n" + "b\""
  {
    var name := CategoryName(cats, t);
    var first := LeadingColumns(t, name);
    MemoQuoted();
    assert RowFields(t, name) == first + [FormatField(t.memo)];
    head := Join(first, ',') + ",\"a";
    QuotedTail(first, head);
  }

  /** The four columns before the memo, joined, hold no line break. */
  lemma LeadingColumns(t: Transaction, name: string) returns (first: seq<string>)
    requires IsTransactionType(t.kind) && IsCalendarDate(t.date) && 0 <= t.date.year <= 9999
    requires Plain(name) && '\n' !in name
    ensures first == [t.kind, IntToString(t.amount), DateString(t.date), name]
    ensures |first| == 4 && '\n' !in Join(first, ',')
  {
    first := [t.kind, IntToString(t.amount), DateString(t.date), name];
    KindPlain(t.kind);
    NumberPlain(t.amount);
    DateStringPlain(t.date);
    FourPlain(t.kind, IntToString(t.amount), DateString(t.date), name);
    NotInJoin(first, ',', '\n');
  }

  /** The export quotes the memo `a`, line break, `b`. */
  lemma MemoQuoted()
    ensures FormatField("a\nb") == "\"a\nb\""
  {
    assert NeedsQuoting("a\nb");
    assert DoubleQuotes("b") == "b";
    assert DoubleQuotes("\nb") == "\nb";
    assert DoubleQuotes("a\nb") == "a\nb";
  }

  lemma QuotedTail(first: seq<string>, head: string)
    requires |first| >= 1 && '\n' !in Join(first, ',')
    requires head == Join(first, ',') + ",\"a"
    ensures '\n' !in head
    ensures Join(first + ["\"a\nb\""], ',') == head + "\n" + "b\""
  {
    JoinSnoc(first, "\"a\nb\"", ',');
    Halves(Join(first, ','));
  }

  lemma Halves(p: string)
    requires '\n' !in p
    ensures '\n' !in p + ",\"a"
    ensures p + [','] + "\"a\nb\"" == (p + ",\"a") + "\n" + "b\""
  {
    assert "\"a\nb\"" == ['"', 'a', '\n', 'b', '"'];
  }

  /** The file splits into the header, the row's two halves and an empty tail. */
  lemma SplitFile(cats: seq<Category>, t: Transaction, head: string)
    requires ReferencesResolve(cats, [t]) && CalendarDates([t])
    requires '\n' !in head
    requires ExportRow(t, CategoryName(cats, t)) == head + "\n" + "b\""
    ensures Split(ExportText(cats, [t]), '\n') == [HEADER, head, "b\"", ""]
  {
    var row := ExportRow(t, CategoryName(cats, t));
    assert ExportRows(cats, [t]) == [row];
    HeaderLine();
    SplitRow(ExportText(cats, [t]), HEADER, row, head, "b\"");
  }

  /** A one-row file whose row holds one line break splits into four lines. */
  lemma SplitRow(content: string, first: string, row: string, x: string, y: string)
    requires content == Join([first] + [row] + [""], '\n')
    requires row == x + "\n" + y
    requires '\n' !in first && '\n' !in x && '\n' !in y
    ensures Split(content, '\n') == [first, x, y, ""]
  {
    JoinThree(first, row, x, y);
    SplitJoin([first, x, y, ""], '\n');
  }

  /** Joining a line that holds a line break is joining its two halves. */
  lemma JoinThree(first: string, row: string, x: string, y: string)
    requires row == x + "\n" + y
    ensures Join([first] + [row] + [""], '\n') == Join([first, x, y, ""], '\n')
  {
    var a, b := [first, row, ""], [first, x, y, ""];
    assert [first] + [row] + [""] == a;
    assert a[1..] == [row, ""] && [row, ""][1..] == [""];
    assert b[1..] == [x, y, ""] && [x, y, ""][1..] == [y, ""] && [y, ""][1..] == [""];
    assert Join([y, ""], '\n') == y + "\n";
    assert Join([row, ""], '\n') == row + "\n";
    assert Join([x, y, ""], '\n') == x + "\n" + (y + "\n");
  }

  /** Whatever line 2 holds, line 3 `b"` scans to a single column and is rejected. */
  lemma TailRejected(content: string, head: string)
    requires Split(content, '\n') == [HEADER, head, "b\"", ""]
    ensures RowError(3, ColumnCount(1, 5)) in ParseCsvSpec(content).errors
  {
    var lines := Split(content, '\n');
    HeaderLine();
    HeaderColumns();
    RejectedLine(content, lines, RowError(3, ColumnCount(1, 5)));
  }

  /** A rejected line of a file with the exported header is among the import's errors. */
  lemma RejectedLine(content: string, lines: seq<string>, e: ParseError)
    requires lines == Split(content, '\n') && |lines| == 4
    requires lines[0] == HEADER && HEADER != "" && Split(HEADER, ',') == COLUMNS
    requires forall h :: h in REQUIRED ==> h in COLUMNS
    requires lines[2] == "b\"" && lines[3] == "" && e == RowError(3, ColumnCount(1, 5))
    ensures e in ParseCsvSpec(content).errors
  {
    TailLine(lines[2], 3);
    TailOutcomes(lines, e);
    var os := Outcomes(COLUMNS, lines, 4);
    assert ParseCsvSpec(content) == Parsed(Accepted(os), Rejected(os));
  }

  lemma TailOutcomes(lines: seq<string>, e: ParseError)
    requires |lines| == 4 && lines[3] == ""
    requires forall h :: h in REQUIRED ==> h in COLUMNS
    requires ReadLine(COLUMNS, lines[2], 3) == Reject(e)
    ensures e in Rejected(Outcomes(COLUMNS, lines, 4))
  {
    var os2 := Outcomes(COLUMNS, lines, 2);
    var os3 := Outcomes(COLUMNS, lines, 3);
    assert os3 == os2 + [Reject(e)];
    OutcomeSnoc(os2, Reject(e));
    assert ReadLine(COLUMNS, lines[3], 4) == Skip;
    assert Outcomes(COLUMNS, lines, 4) == os3 + [Skip];
    OutcomeSnoc(os3, Skip);
  }

  /** The line `b"` has one column. */
  lemma TailLine(raw: string, n: nat)
    requires raw == "b\""
    requires forall h :: h in REQUIRED ==> h in COLUMNS
    ensures ReadLine(COLUMNS, raw, n) == Reject(RowError(n, ColumnCount(1, 5)))
  {
    TailScan(raw);
    OneColumn(raw, raw, n);
  }

  /** A non-blank line that scans to one column is rejected for its column count. */
  lemma OneColumn(raw: string, line: string, n: nat)
    requires forall h :: h in REQUIRED ==> h in COLUMNS
    requires Trim(raw) == line && line != "" && |ParseLine(line)| == 1
    ensures ReadLine(COLUMNS, raw, n) == Reject(RowError(n, ColumnCount(1, 5)))
  {
    assert |COLUMNS| == 5;
  }

  lemma TailScan(raw: string)
    requires raw == "b\""
    ensures Trim(raw) == raw && raw != ""
    ensures ParseLine(raw) == ["b"]
  {
    TrimUnchanged(raw);
    assert raw[0] == 'b' && raw[1..] == "\"" && raw[1..][1..] == [];
    assert "" + [raw[0]] == "b";
    assert Scan(raw, false, "", []) == Scan("\"", false, "b", []);
    assert Scan("\"", false, "b", []) == Scan([], true, "b", []);
  }
}
