/** What the CSV import (`parseCSVLine`, `parseCSV`) reads back from what the
    CSV export writes: one quoted field, one exported row, and a whole file.
    Two kinds of memo are outside the round trip (see `Portable`): one holding
    a line break, which the export quotes but the import splits apart, and an
    unquoted one that ends in whitespace, which the import trims. */
module CsvRoundTrip {
  import opened Options
  import opened Text
  import opened Dates
  import opened Ledger
  import opened CsvExport
  import opened CsvImport

  /** A column the export writes without quoting and the scanner reads as it is. */
  predicate Plain(s: string) {
    ',' !in s && '"' !in s
  }

  // ---------------------------------------------------------------------
  // The scanner over exported fields
  // ---------------------------------------------------------------------

  /** Outside quotes, a text with no comma and no quote is copied into the current field. */
  lemma {:induction false} ScanPlain(p: string, rest: string, cur: string, values: seq<string>)
    requires Plain(p)
    ensures Scan(p + rest, false, cur, values) == Scan(rest, false, cur + p, values)
    decreases |p|
  {
    if p == [] {
      assert p + rest == rest;
      assert cur + p == cur;
    } else {
      assert (p + rest)[0] == p[0] && (p + rest)[1..] == p[1..] + rest;
      ScanPlain(p[1..], rest, cur + [p[0]], values);
      assert cur + [p[0]] + p[1..] == cur + p;
    }
  }

  /** Inside quotes, the doubled-quote text of `v` followed by the closing quote
      reads back as `v` and leaves the quotes. */
  lemma {:induction false} ScanQuoted(v: string, rest: string, cur: string, values: seq<string>)
    requires rest == [] || rest[0] != '"'
    ensures Scan(DoubleQuotes(v) + ("\"" + rest), true, cur, values) == Scan(rest, false, cur + v, values)
    decreases |v|
  {
    var w := "\"" + rest;
    if v == [] {
      assert DoubleQuotes(v) + w == w;
      assert w[1..] == rest;
      assert cur + v == cur;
    } else {
      var tail := DoubleQuotes(v[1..]) + w;
      QuotedFirst(v, w);
      ScanFirst(v[0], tail, cur, values);
      ScanQuoted(v[1..], rest, cur + [v[0]], values);
      MoveFirst(cur, v);
    }
  }

  /** The doubled-quote text of `v` starts with that of its first character. */
  lemma QuotedFirst(v: string, w: string)
    requires v != []
    ensures DoubleQuotes(v) + w == (if v[0] == '"' then "\"\"" else [v[0]]) + (DoubleQuotes(v[1..]) + w)
  {
    var d := DoubleQuotes(v[1..]);
    if v[0] == '"' {
      assert DoubleQuotes(v) == "\"\"" + d;
      Regroup("\"\"", d, w);
    } else {
      assert DoubleQuotes(v) == [v[0]] + d;
      Regroup([v[0]], d, w);
    }
  }

  lemma Regroup(a: string, b: string, c: string)
    ensures (a + b) + c == a + (b + c)
  {
  }

  /** Inside quotes, the written form of one character reads as that character. */
  lemma ScanFirst(c: char, x: string, cur: string, values: seq<string>)
    ensures Scan((if c == '"' then "\"\"" else [c]) + x, true, cur, values) == Scan(x, true, cur + [c], values)
  {
    if c == '"' {
      ScanDoubled(x, cur, values);
    } else {
      ScanInside(c, x, cur, values);
    }
  }

  lemma MoveFirst(cur: string, v: string)
    requires v != []
    ensures cur + [v[0]] + v[1..] == cur + v
  {
    assert v == [v[0]] + v[1..];
  }

  /** Inside quotes, `""` reads as one quote. */
  lemma ScanDoubled(x: string, cur: string, values: seq<string>)
    ensures Scan("\"\"" + x, true, cur, values) == Scan(x, true, cur + "\"", values)
  {
    assert ("\"\"" + x)[2..] == x;
  }

  /** Inside quotes, any character but a quote is copied. */
  lemma ScanInside(c: char, x: string, cur: string, values: seq<string>)
    requires c != '"'
    ensures Scan([c] + x, true, cur, values) == Scan(x, true, cur + [c], values)
  {
    assert ([c] + x)[1..] == x;
  }

  /** A formatted field at the end of a line closes as the field it was made from. */
  lemma LastField(v: string, values: seq<string>)
    ensures Scan(FormatField(v), false, "", values) == values + [v]
  {
    if NeedsQuoting(v) {
      var s := FormatField(v);
      assert s == "\"" + (DoubleQuotes(v) + ("\"" + []));
      assert s[1..] == DoubleQuotes(v) + ("\"" + []);
      ScanQuoted(v, [], "", values);
      assert "" + v == v;
    } else {
      ScanPlain(v, [], "", values);
      assert v + [] == v;
      assert "" + v == v;
    }
  }

  /** `parseCSVLine` undoes `formatCsvField`: every text, quotes and commas
      included, comes back as the single field it was. */
  lemma FieldRoundTrip(v: string)
    ensures ParseLine(FormatField(v)) == [v]
  {
    LastField(v, []);
  }

  /** Plain columns joined by commas, then one formatted field, scan back to
      the columns and the field's text. */
  lemma {:induction false} ScanFields(fields: seq<string>, last: string, values: seq<string>)
    requires forall k :: 0 <= k < |fields| ==> Plain(fields[k])
    ensures Scan(Join(fields + [FormatField(last)], ','), false, "", values) == values + fields + [last]
    decreases |fields|
  {
    var x := FormatField(last);
    if fields == [] {
      assert fields + [x] == [x];
      LastField(last, values);
      assert values + fields == values;
    } else {
      var tail := fields[1..] + [x];
      assert fields + [x] == [fields[0]] + tail;
      var rest := Join(tail, ',');
      assert Join(fields + [x], ',') == fields[0] + ([','] + rest);
      ScanPlain(fields[0], [','] + rest, "", values);
      assert "" + fields[0] == fields[0];
      assert ([','] + rest)[1..] == rest;
      ScanFields(fields[1..], last, values + [fields[0]]);
      assert values + [fields[0]] + fields[1..] == values + fields;
    }
  }

  // ---------------------------------------------------------------------
  // One exported row
  // ---------------------------------------------------------------------

  /** The conditions under which an exported transaction reads back unchanged:
      a type the import accepts, a four-digit year, a category name with no
      comma, quote or line break, a memo with no line break, and a memo that
      is empty, quoted, or does not end in whitespace (the import trims each
      line). */
  predicate Portable(cats: seq<Category>, t: Transaction) {
    && HasCategory(cats, t.categoryId)
    && IsTransactionType(t.kind)
    && IsCalendarDate(t.date) && 0 <= t.date.year <= 9999
    && Plain(CategoryName(cats, t)) && '\n' !in CategoryName(cats, t)
    && '\n' !in t.memo
    && (t.memo == [] || NeedsQuoting(t.memo) || !IsJsWhitespace(t.memo[|t.memo| - 1]))
  }

  /** The record the import makes of an exported transaction. */
  function RecordOf(cats: seq<Category>, t: Transaction): (r: CsvRecord)
    requires HasCategory(cats, t.categoryId)
    ensures r.kind == t.kind && r.amount == t.amount && r.date == t.date && r.memo == t.memo
    ensures r.category == FindById(cats, t.categoryId).value.name
  {
    CsvRecord(t.kind, t.amount, t.date, CategoryName(cats, t), t.memo)
  }

  /** The records of a list of exported transactions, in order. */
  function Exported(cats: seq<Category>, rows: seq<Transaction>): (records: seq<CsvRecord>)
    requires ReferencesResolve(cats, rows)
    ensures |records| == |rows|
    ensures forall k :: 0 <= k < |rows| ==> records[k] == RecordOf(cats, rows[k])
  {
    if rows == [] then []
    else
      assert rows[|rows| - 1] in rows;
      Exported(cats, rows[..|rows| - 1]) + [RecordOf(cats, rows[|rows| - 1])]
  }

  lemma DateStringPlain(d: Date)
    requires IsCalendarDate(d) && 0 <= d.year <= 9999
    ensures Plain(DateString(d)) && '\n' !in DateString(d)
    ensures DateString(d) != ""
  {
    var y, m, dd := IsoYear(d.year), Pad2(d.month), Pad2(d.day);
    ZeroPaddedDigits(NatToString(d.year), 4);
    assert DateString(d) == y + "-" + m + "-" + dd;
    DigitsAvoid(y, ',');
    DigitsAvoid(m, ',');
    DigitsAvoid(dd, ',');
    DigitsAvoid(y, '"');
    DigitsAvoid(m, '"');
    DigitsAvoid(dd, '"');
    DigitsAvoid(y, '\n');
    DigitsAvoid(m, '\n');
    DigitsAvoid(dd, '\n');
  }

  /** Padding digits with zeros keeps them digits. */
  lemma ZeroPaddedDigits(s: string, width: nat)
    requires AllDigits(s)
    ensures AllDigits(PadStart(s, width, '0'))
  {
    var r := PadStart(s, width, '0');
    forall i | 0 <= i < |r| ensures IsDigit(r[i]) {
      if i >= |r| - |s| {
        assert r[i] == r[|r| - |s|..][i - (|r| - |s|)];
      }
    }
  }

  lemma KindPlain(kind: string)
    requires IsTransactionType(kind)
    ensures Plain(kind) && '\n' !in kind
    ensures kind != "" && !IsJsWhitespace(kind[0])
  {
  }

  lemma NumberPlain(n: int)
    ensures Plain(IntToString(n)) && '\n' !in IntToString(n)
  {
    var s := IntToString(n);
    DigitsAvoid(s[1..], ',');
    DigitsAvoid(s[1..], '"');
    DigitsAvoid(s[1..], '\n');
    assert s == [s[0]] + s[1..];
  }

  /** The count of a character is zero exactly when the text lacks it. */
  lemma {:induction false} CountZero(s: string, c: char)
    ensures CountOf(s, c) == 0 <==> c !in s
    decreases |s|
  {
    if s != [] {
      CountZero(s[1..], c);
      assert s == [s[0]] + s[1..];
    }
  }

  /** The escaped memo holds a line break only if the memo does. */
  lemma MemoLine(v: string)
    requires '\n' !in v
    ensures '\n' !in FormatField(v)
  {
    CountZero(v, '\n');
    CountZero(DoubleQuotes(v), '\n');
    if NeedsQuoting(v) {
      assert FormatField(v) == "\"" + DoubleQuotes(v) + "\"";
    }
  }

  /** An exported row is one line, and reading it against the exported header
      gives back the transaction's record. */
  lemma RowRoundTrip(cats: seq<Category>, t: Transaction, lineNo: nat)
    requires Portable(cats, t)
    ensures '\n' !in ExportRow(t, CategoryName(cats, t))
    ensures ReadLine(COLUMNS, ExportRow(t, CategoryName(cats, t)), lineNo) == Accept(RecordOf(cats, t))
  {
    var name := CategoryName(cats, t);
    var row := ExportRow(t, name);
    var amountText, dateText := IntToString(t.amount), DateString(t.date);
    assert '\n' !in row && Trim(row) != "" && ParseLine(Trim(row)) == [t.kind, amountText, dateText, name, t.memo]
      by { RowLine(cats, t); }
    assert ParseNumber(amountText) == Some(t.amount) by { NumberRoundTrip(t.amount); }
    assert ParseDay(dateText) == Some(t.date) by { DateStringRoundTrip(t.date); }
    assert forall h :: h in REQUIRED ==> h in COLUMNS by { ColumnPositions(); }
    ReadColumns(row, t.kind, amountText, dateText, name, t.memo, lineNo, t.amount, t.date);
  }

  /** The exported row of a portable transaction is one trimmed line that
      scans back to its five columns. */
  lemma RowLine(cats: seq<Category>, t: Transaction)
    requires Portable(cats, t)
    ensures var row := ExportRow(t, CategoryName(cats, t));
      && '\n' !in row && row != "" && Trim(row) == row
      && ParseLine(row) == [t.kind, IntToString(t.amount), DateString(t.date), CategoryName(cats, t), t.memo]
  {
    RowLineNamed(t, CategoryName(cats, t));
  }

  lemma RowLineNamed(t: Transaction, name: string)
    requires IsTransactionType(t.kind) && IsCalendarDate(t.date) && 0 <= t.date.year <= 9999
    requires Plain(name) && '\n' !in name && '\n' !in t.memo
    requires t.memo == [] || NeedsQuoting(t.memo) || !IsJsWhitespace(t.memo[|t.memo| - 1])
    ensures var row := ExportRow(t, name);
      && '\n' !in row && row != "" && Trim(row) == row
      && ParseLine(row) == [t.kind, IntToString(t.amount), DateString(t.date), name, t.memo]
  {
    RowColumns(t, name);
    ColumnsText(t, name);
  }

  /** The joined columns of a portable transaction: one trimmed line that
      scans back to the five values. */
  lemma ColumnsText(t: Transaction, name: string)
    requires IsTransactionType(t.kind) && IsCalendarDate(t.date) && 0 <= t.date.year <= 9999
    requires Plain(name) && '\n' !in name && '\n' !in t.memo
    requires t.memo == [] || NeedsQuoting(t.memo) || !IsJsWhitespace(t.memo[|t.memo| - 1])
    ensures var row := Join([t.kind, IntToString(t.amount), DateString(t.date), name] + [FormatField(t.memo)], ',');
      && '\n' !in row && row != "" && Trim(row) == row
      && ParseLine(row) == [t.kind, IntToString(t.amount), DateString(t.date), name, t.memo]
  {
    var first := [t.kind, IntToString(t.amount), DateString(t.date), name];
    ColumnsPlain(t, name);
    RowText(first, t.memo);
    assert first + [t.memo] == [t.kind, IntToString(t.amount), DateString(t.date), name, t.memo];
  }

  /** The row is its first four columns and the escaped memo, joined. */
  lemma RowColumns(t: Transaction, name: string)
    requires IsCalendarDate(t.date)
    ensures ExportRow(t, name) == Join([t.kind, IntToString(t.amount), DateString(t.date), name] + [FormatField(t.memo)], ',')
  {
    assert RowFields(t, name) == [t.kind, IntToString(t.amount), DateString(t.date), name] + [FormatField(t.memo)];
  }

  /** The first four columns of a portable transaction are plain single lines. */
  lemma ColumnsPlain(t: Transaction, name: string)
    requires IsTransactionType(t.kind) && IsCalendarDate(t.date) && 0 <= t.date.year <= 9999
    requires Plain(name) && '\n' !in name
    ensures var first := [t.kind, IntToString(t.amount), DateString(t.date), name];
      && first[0] != "" && !IsJsWhitespace(first[0][0])
      && forall k :: 0 <= k < 4 ==> Plain(first[k]) && '\n' !in first[k]
  {
    KindPlain(t.kind);
    NumberPlain(t.amount);
    DateStringPlain(t.date);
    FourPlain(t.kind, IntToString(t.amount), DateString(t.date), name);
  }

  lemma FourPlain(a: string, b: string, c: string, d: string)
    requires Plain(a) && Plain(b) && Plain(c) && Plain(d)
    requires '\n' !in a && '\n' !in b && '\n' !in c && '\n' !in d
    ensures forall k :: 0 <= k < 4 ==> Plain([a, b, c, d][k]) && '\n' !in [a, b, c, d][k]
  {
  }

  /** Four plain columns and a memo, joined: one line that trimming leaves as
      it is and that scans back to the columns and the memo. */
  lemma RowText(first: seq<string>, memo: string)
    requires |first| == 4 && first[0] != "" && !IsJsWhitespace(first[0][0])
    requires forall k :: 0 <= k < 4 ==> Plain(first[k]) && '\n' !in first[k]
    requires '\n' !in memo
    requires memo == [] || NeedsQuoting(memo) || !IsJsWhitespace(memo[|memo| - 1])
    ensures '\n' !in Join(first + [FormatField(memo)], ',')
    ensures Trim(Join(first + [FormatField(memo)], ',')) == Join(first + [FormatField(memo)], ',')
    ensures ParseLine(Join(first + [FormatField(memo)], ',')) == first + [memo]
    ensures Join(first + [FormatField(memo)], ',') != ""
  {
    RowTextLine(first, memo);
    RowTextTrimmed(first, memo);
    ScanFields(first, memo, []);
    assert [] + first + [memo] == first + [memo];
  }

  lemma RowTextLine(first: seq<string>, memo: string)
    requires forall k :: 0 <= k < |first| ==> '\n' !in first[k]
    requires '\n' !in memo
    ensures '\n' !in Join(first + [FormatField(memo)], ',')
  {
    var parts := first + [FormatField(memo)];
    MemoLine(memo);
    assert forall k :: 0 <= k < |parts| ==> '\n' !in parts[k];
    NotInJoin(parts, ',', '\n');
  }

  lemma RowTextTrimmed(first: seq<string>, memo: string)
    requires |first| >= 1 && first[0] != "" && !IsJsWhitespace(first[0][0])
    requires memo == [] || NeedsQuoting(memo) || !IsJsWhitespace(memo[|memo| - 1])
    ensures Trim(Join(first + [FormatField(memo)], ',')) == Join(first + [FormatField(memo)], ',')
    ensures Join(first + [FormatField(memo)], ',') != ""
  {
    MemoEnd(memo);
    JoinedTrimmed(first, FormatField(memo));
  }

  /** The escaped memo does not end in white space: it ends in a quote, or
      is the memo, which does not. */
  lemma MemoEnd(memo: string)
    requires memo == [] || NeedsQuoting(memo) || !IsJsWhitespace(memo[|memo| - 1])
    ensures var x := FormatField(memo); !IsJsWhitespace(if x == [] then ',' else x[|x| - 1])
  {
    var x := FormatField(memo);
    var last := if x == [] then ',' else x[|x| - 1];
    if NeedsQuoting(memo) {
      assert x == "\"" + DoubleQuotes(memo) + "\"";
      assert last == '"';
    } else {
      assert x == memo;
    }
  }

  /** Columns joined with commas, the first starting and the last ending in
      something other than white space, are left alone by trimming. */
  lemma JoinedTrimmed(first: seq<string>, x: string)
    requires |first| >= 1 && first[0] != "" && !IsJsWhitespace(first[0][0])
    requires !IsJsWhitespace(if x == [] then ',' else x[|x| - 1])
    ensures Trim(Join(first + [x], ',')) == Join(first + [x], ',')
    ensures Join(first + [x], ',') != ""
  {
    JoinEnds(first, x, ',');
    TrimUnchanged(Join(first + [x], ','));
  }

  /** The first and last characters of a joined row. */
  lemma JoinEnds(first: seq<string>, x: string, sep: char)
    requires |first| >= 1 && first[0] != ""
    ensures var row := Join(first + [x], sep);
      row != "" && row[0] == first[0][0] && row[|row| - 1] == (if x == [] then sep else x[|x| - 1])
  {
    JoinSnoc(first, x, sep);
    var prefix := Join(first, sep);
    if |first| > 1 {
      assert prefix == first[0] + [sep] + Join(first[1..], sep);
    }
    assert prefix[0] == first[0][0];
  }

  /** The exported header puts each column at its own position. */
  lemma ColumnPositions()
    ensures forall h :: h in REQUIRED ==> h in COLUMNS
    ensures "memo" in COLUMNS
    ensures LastIndex(COLUMNS, "type") == 0 && LastIndex(COLUMNS, "amount") == 1
    ensures LastIndex(COLUMNS, "date") == 2 && LastIndex(COLUMNS, "category") == 3
    ensures LastIndex(COLUMNS, "memo") == 4
  {
    assert COLUMNS[4] == "memo";
  }

  /** A line whose trimmed text has five readable columns is accepted as their record. */
  lemma ReadColumns(raw: string, kind: string, amountText: string, dateText: string, category: string, memo: string,
                    lineNo: nat, amount: int, date: Date)
    requires Trim(raw) != "" && ParseLine(Trim(raw)) == [kind, amountText, dateText, category, memo]
    requires IsTransactionType(kind)
    requires ParseNumber(amountText) == Some(amount)
    requires ParseDay(dateText) == Some(date)
    requires forall h :: h in REQUIRED ==> h in COLUMNS
    ensures ReadLine(COLUMNS, raw, lineNo) == Accept(CsvRecord(kind, amount, date, category, memo))
  {
    ColumnPositions();
    var values := ParseLine(Trim(raw));
    assert |values| == |COLUMNS|;
    assert values[LastIndex(COLUMNS, "type")] == kind;
    assert values[LastIndex(COLUMNS, "amount")] == amountText;
    assert values[LastIndex(COLUMNS, "date")] == dateText;
    assert values[LastIndex(COLUMNS, "category")] == category;
    assert values[LastIndex(COLUMNS, "memo")] == memo;
  }


  // ---------------------------------------------------------------------
  // A whole file
  // ---------------------------------------------------------------------

  /** The exported header line splits into the column names, all of which the import requires or reads. */
  lemma HeaderColumns()
    ensures Split(HEADER, ',') == COLUMNS
    ensures forall h :: h in REQUIRED ==> h in COLUMNS
  {
    SplitJoin(COLUMNS, ',');
  }

  /** The data lines 1 .. n-1 of an exported file are each accepted, as the
      records of the first n-1 transactions. */
  lemma {:induction false} OutcomesOfRows(cats: seq<Category>, rows: seq<Transaction>, head: string, n: nat)
    requires ReferencesResolve(cats, rows) && CalendarDates(rows)
    requires forall t :: t in rows ==> Portable(cats, t)
    requires forall h :: h in REQUIRED ==> h in COLUMNS
    requires 1 <= n <= |rows| + 1
    ensures Accepted(Outcomes(COLUMNS, [head] + ExportRows(cats, rows) + [""], n)) == Exported(cats, rows[..n - 1])
    ensures Rejected(Outcomes(COLUMNS, [head] + ExportRows(cats, rows) + [""], n)) == []
    decreases n
  {
    var lines := [head] + ExportRows(cats, rows) + [""];
    if n > 1 {
      OutcomesOfRows(cats, rows, head, n - 1);
      assert rows[n - 2] in rows;
      LineAccepted(cats, rows, head, n);
      var os := Outcomes(COLUMNS, lines, n - 1);
      var o := ReadLine(COLUMNS, lines[n - 1], n);
      assert Outcomes(COLUMNS, lines, n) == os + [o];
      OutcomeSnoc(os, o);
      ExportedSnoc(cats, rows, n - 1);
    }
  }

  /** Data line n-1 of an exported file is the row of transaction n-2. */
  lemma LineAccepted(cats: seq<Category>, rows: seq<Transaction>, head: string, n: nat)
    requires ReferencesResolve(cats, rows) && CalendarDates(rows)
    requires 2 <= n <= |rows| + 1 && Portable(cats, rows[n - 2])
    ensures ReadLine(COLUMNS, ([head] + ExportRows(cats, rows) + [""])[n - 1], n) == Accept(RecordOf(cats, rows[n - 2]))
  {
    Framed(head, ExportRows(cats, rows), n - 2);
    ExportedLine(cats, rows, n - 2, ([head] + ExportRows(cats, rows) + [""])[n - 1], n);
  }

  /** A line holding exported row k is accepted as the record of transaction k. */
  lemma ExportedLine(cats: seq<Category>, rows: seq<Transaction>, k: nat, line: string, lineNo: nat)
    requires ReferencesResolve(cats, rows) && CalendarDates(rows)
    requires k < |rows| && Portable(cats, rows[k]) && line == ExportRows(cats, rows)[k]
    ensures ReadLine(COLUMNS, line, lineNo) == Accept(RecordOf(cats, rows[k]))
  {
    assert rows[k] in rows;
    LineOfRow(cats, rows[k], line, lineNo);
  }

  /** A line holding the exported row of `t` is accepted as the record of `t`. */
  lemma LineOfRow(cats: seq<Category>, t: Transaction, line: string, lineNo: nat)
    requires Portable(cats, t) && line == ExportRow(t, CategoryName(cats, t))
    ensures ReadLine(COLUMNS, line, lineNo) == Accept(RecordOf(cats, t))
  {
    RowRoundTrip(cats, t, lineNo);
  }

  /** Line k+1 of a file framed by a first and a last line is line k of its middle. */
  lemma Framed(head: string, lines: seq<string>, k: nat)
    requires k < |lines|
    ensures ([head] + lines + [""])[k + 1] == lines[k]
  {
  }

  lemma OutcomeSnoc(os: seq<LineOutcome>, o: LineOutcome)
    ensures Accepted(os + [o]) == Accepted(os) + (if o.Accept? then [o.record] else [])
    ensures Rejected(os + [o]) == Rejected(os) + (if o.Reject? then [o.error] else [])
  {
    assert (os + [o])[..|os|] == os;
  }

  lemma ExportedSnoc(cats: seq<Category>, rows: seq<Transaction>, k: nat)
    requires ReferencesResolve(cats, rows)
    requires 1 <= k <= |rows|
    ensures ReferencesResolve(cats, rows[..k]) && ReferencesResolve(cats, rows[..k - 1])
    ensures Exported(cats, rows[..k]) == Exported(cats, rows[..k - 1]) + [RecordOf(cats, rows[k - 1])]
  {
    assert rows[..k][..k - 1] == rows[..k - 1];
    assert forall t :: t in rows[..k] ==> t in rows;
    assert forall t :: t in rows[..k - 1] ==> t in rows;
  }

  /** Exporting transactions and importing the file gives back, without an
      error, one record per transaction, in the exported order, with its type,
      amount, day, category name and memo. */
  lemma ExportImportRoundTrip(cats: seq<Category>, rows: seq<Transaction>)
    requires ReferencesResolve(cats, rows) && CalendarDates(rows)
    requires forall t :: t in rows ==> Portable(cats, t)
    ensures ParseCsvSpec(ExportText(cats, rows)) == Parsed(Exported(cats, rows), [])
  {
    RowsAreLines(cats, rows);
    ExportLines(cats, rows);
    HeaderLine();
    HeaderColumns();
    FileOutcomes(cats, rows, HEADER);
  }

  /** No exported row of portable transactions holds a line break. */
  lemma RowsAreLines(cats: seq<Category>, rows: seq<Transaction>)
    requires ReferencesResolve(cats, rows) && CalendarDates(rows)
    requires forall t :: t in rows ==> Portable(cats, t)
    ensures forall line :: line in ExportRows(cats, rows) ==> '\n' !in line
  {
    forall line | line in ExportRows(cats, rows) ensures '\n' !in line {
      var k :| 0 <= k < |rows| && ExportRows(cats, rows)[k] == line;
      assert rows[k] in rows;
      RowLine(cats, rows[k]);
    }
  }

  /** Every data line of an exported file is accepted and the final empty line is skipped. */
  lemma FileOutcomes(cats: seq<Category>, rows: seq<Transaction>, head: string)
    requires ReferencesResolve(cats, rows) && CalendarDates(rows)
    requires forall t :: t in rows ==> Portable(cats, t)
    requires forall h :: h in REQUIRED ==> h in COLUMNS
    ensures Accepted(Outcomes(COLUMNS, [head] + ExportRows(cats, rows) + [""], |rows| + 2)) == Exported(cats, rows)
    ensures Rejected(Outcomes(COLUMNS, [head] + ExportRows(cats, rows) + [""], |rows| + 2)) == []
  {
    var lines := [head] + ExportRows(cats, rows) + [""];
    OutcomesOfRows(cats, rows, head, |rows| + 1);
    var os := Outcomes(COLUMNS, lines, |rows| + 1);
    var o := ReadLine(COLUMNS, lines[|rows| + 1], |rows| + 2);
    EmptyLineSkipped(head, ExportRows(cats, rows), |rows| + 2);
    assert Outcomes(COLUMNS, lines, |rows| + 2) == os + [o];
    OutcomeSnoc(os, o);
    assert rows[..|rows|] == rows;
  }

  /** The empty line after the last newline is skipped. */
  lemma EmptyLineSkipped(head: string, lines: seq<string>, lineNo: nat)
    requires forall h :: h in REQUIRED ==> h in COLUMNS
    ensures ReadLine(COLUMNS, ([head] + lines + [""])[|lines| + 1], lineNo) == Skip
  {
    assert ([head] + lines + [""])[|lines| + 1] == "";
  }
}
