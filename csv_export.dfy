/** CSV export (app/src/app/api/data-management/export-csv/route.ts): a fixed
    header line, then one line per transaction, newest first. Only the memo is
    escaped; the other four columns are written as they are. */
module CsvExport {
  import opened Options
  import opened Text
  import opened Dates
  import opened Ledger

  /** The column names, in the order of every row. */
  const COLUMNS: seq<string> := ["type", "amount", "date", "category", "memo"]

  /** `headers.join(',')`. */
  const HEADER: string := Join(COLUMNS, ',')

  /** The field must be quoted: it holds a comma, a double quote or a newline. */
  predicate NeedsQuoting(v: string) {
    ',' in v || '"' in v || '\n' in v
  }

  function CountOf(s: string, c: char): nat {
    if s == [] then 0 else (if s[0] == c then 1 else 0) + CountOf(s[1..], c)
  }

  /** `value.replace(/"/g, '""')`: every double quote is written twice. */
  function DoubleQuotes(v: string): (r: string)
    ensures |r| == |v| + CountOf(v, '"')
    ensures CountOf(r, '"') == 2 * CountOf(v, '"')
    ensures forall c :: c != '"' ==> CountOf(r, c) == CountOf(v, c)
  {
    if v == [] then []
    else
      var head := if v[0] == '"' then "\"\"" else [v[0]];
      CountAppend(head, DoubleQuotes(v[1..]));
      head + DoubleQuotes(v[1..])
  }

  lemma {:induction false} CountAppend(a: string, b: string)
    ensures forall c :: CountOf(a + b, c) == CountOf(a, c) + CountOf(b, c)
    decreases |a|
  {
    if a != [] {
      assert (a + b)[0] == a[0] && (a + b)[1..] == a[1..] + b;
      CountAppend(a[1..], b);
    } else {
      assert a + b == b;
    }
  }

  /** `formatCsvField`: quoting in the manner of RFC 4180, section 2, rules 6 and 7. */
  function FormatField(v: string): (r: string)
    ensures |r| >= |v|
    ensures r == v || (|r| >= 2 && r[0] == '"' && r[|r| - 1] == '"')
  {
    if NeedsQuoting(v) then "\"" + DoubleQuotes(v) + "\"" else v
  }

  /** The export of a transaction that needs no escaping is the transaction's own text. */
  lemma FormatFieldPlain(v: string)
    requires !NeedsQuoting(v)
    ensures FormatField(v) == v
  {
  }

  /** A field that needs escaping is wrapped in quotes, with one extra quote per quote it holds. */
  lemma FormatFieldQuoted(v: string)
    requires NeedsQuoting(v)
    ensures |FormatField(v)| == |v| + CountOf(v, '"') + 2
    ensures CountOf(FormatField(v), '"') == 2 * CountOf(v, '"') + 2
  {
    var d := DoubleQuotes(v);
    CountAppend("\"", d);
    CountAppend("\"" + d, "\"");
  }

  /** One exported line without its newline: type, amount, day, category name
      and the escaped memo, joined by commas. */
  function ExportRow(t: Transaction, categoryName: string): string
    requires IsCalendarDate(t.date)
  {
    Join(RowFields(t, categoryName), ',')
  }

  /** The five columns of a row, in header order. */
  function RowFields(t: Transaction, categoryName: string): (fields: seq<string>)
    requires IsCalendarDate(t.date)
    ensures |fields| == 5
  {
    [t.kind, IntToString(t.amount), DateString(t.date), categoryName, FormatField(t.memo)]
  }

  /** The category a stored transaction joins with (`include: { category: true }`). */
  function CategoryName(cats: seq<Category>, t: Transaction): string
    requires HasCategory(cats, t.categoryId)
  {
    FindById(cats, t.categoryId).value.name
  }

  /** The rows the export writes, in order. */
  function ExportRows(cats: seq<Category>, rows: seq<Transaction>): (lines: seq<string>)
    requires ReferencesResolve(cats, rows) && CalendarDates(rows)
    ensures |lines| == |rows|
    ensures forall k :: 0 <= k < |rows| ==> lines[k] == ExportRow(rows[k], CategoryName(cats, rows[k]))
  {
    seq(|rows|, k requires 0 <= k < |rows| => assert rows[k] in rows; ExportRow(rows[k], CategoryName(cats, rows[k])))
  }

  /** The whole file: every line, the header included, ends with a newline. */
  function ExportText(cats: seq<Category>, rows: seq<Transaction>): string
    requires ReferencesResolve(cats, rows) && CalendarDates(rows)
  {
    Join([HEADER] + ExportRows(cats, rows) + [""], '\n')
  }

  /** The stored moment of day `d` lies between the query's bounds (`date: { gte, lte }`). */
  predicate InPeriod(d: Date, from: Instant, to: Instant) {
    InstantLe(from, Midnight(d)) && InstantLe(Midnight(d), to)
  }

  /** The transactions the date filter keeps, in order. */
  function Between(ts: seq<Transaction>, from: Instant, to: Instant): seq<Transaction> {
    if ts == [] then []
    else (if InPeriod(ts[0].date, from, to) then [ts[0]] else []) + Between(ts[1..], from, to)
  }

  /** The filter keeps exactly the records whose day is in the period, each
      as often as it is stored, and drops the others. */
  lemma BetweenMembers(ts: seq<Transaction>, from: Instant, to: Instant)
    ensures forall t :: t in Between(ts, from, to) <==> t in ts && InPeriod(t.date, from, to)
    ensures multiset(Between(ts, from, to)) <= multiset(ts)
    ensures forall t :: multiset(Between(ts, from, to))[t] == if InPeriod(t.date, from, to) then multiset(ts)[t] else 0
  {
    var picked := Between(ts, from, to);
    BetweenCounts(ts, from, to);
    forall t
      ensures t in picked <==> t in ts && InPeriod(t.date, from, to)
    {
      assert t in picked <==> t in multiset(picked);
      assert t in ts <==> t in multiset(ts);
    }
  }

  lemma {:induction false} BetweenCounts(ts: seq<Transaction>, from: Instant, to: Instant)
    ensures forall t :: multiset(Between(ts, from, to))[t] == if InPeriod(t.date, from, to) then multiset(ts)[t] else 0
    decreases |ts|
  {
    if ts != [] {
      BetweenCounts(ts[1..], from, to);
      assert ts == [ts[0]] + ts[1..];
      assert multiset(ts) == multiset{ts[0]} + multiset(ts[1..]);
    }
  }

  /** Bounds at midnight select whole days, the end's day included; a start
      later in its day leaves that day out. */
  lemma PeriodInDays(d: Date, from: Instant, to: Instant)
    requires IsInstant(from) && IsInstant(to)
    ensures from.millis == 0 ==> (InPeriod(d, from, to) <==> InRange(d, Range(from.day, to.day)))
    ensures from.millis > 0 ==> !InPeriod(from.day, from, to)
  {
  }

  /** The filter applies only when both parameters are given and non-empty. */
  predicate Filtered(start: Option<string>, end: Option<string>) {
    start.Some? && start.value != "" && end.Some? && end.value != ""
  }

  /** The query: without both bounds every record, otherwise the records
      between `new Date(start)` and `new Date(end)`; a bound that is an invalid
      date makes the store reject the query. The result is newest first. */
  function SelectRows(ts: seq<Transaction>, start: Option<string>, end: Option<string>): (r: Option<seq<Transaction>>)
    ensures r.None? <==> Filtered(start, end) && (ParseInstant(start.value).None? || ParseInstant(end.value).None?)
    ensures r.Some? && !Filtered(start, end) ==> multiset(r.value) == multiset(ts)
    ensures r.Some? && Filtered(start, end) ==>
      forall t :: t in r.value <==> t in ts && InPeriod(t.date, ParseInstant(start.value).value, ParseInstant(end.value).value)
    ensures r.Some? && Filtered(start, end) ==>
      forall t :: multiset(r.value)[t] ==
        if InPeriod(t.date, ParseInstant(start.value).value, ParseInstant(end.value).value) then multiset(ts)[t] else 0
    ensures r.Some? ==> multiset(r.value) <= multiset(ts)
    ensures r.Some? ==> forall i, j :: 0 <= i < j < |r.value| ==> DateLe(r.value[j].date, r.value[i].date)
  {
    if Filtered(start, end) then
      var from, to := ParseInstant(start.value), ParseInstant(end.value);
      if from.None? || to.None? then None
      else
        var picked := Between(ts, from.value, to.value);
        BetweenMembers(ts, from.value, to.value);
        SortedMembers(picked);
        Some(ByDateDesc(picked))
    else
      Some(ByDateDesc(ts))
  }

  /** The "this month" export of the data-management page sends the
      `toISOString()` of the month's first day and of its last day (both at
      midnight, the clock being in UTC); the query then selects exactly the
      stored transactions dated in that month. */
  lemma MonthExport(ts: seq<Transaction>, year: int, monthIndex: int)
    requires CalendarDates(ts)
    requires 0 <= MonthStart(year, monthIndex).year <= 9999 && 0 <= DayZero(year, monthIndex + 1).year <= 9999
    ensures SelectRows(ts, Some(IsoTimestamp(MonthStart(year, monthIndex))), Some(IsoTimestamp(DayZero(year, monthIndex + 1)))).Some?
    ensures forall t ::
              t in SelectRows(ts, Some(IsoTimestamp(MonthStart(year, monthIndex))), Some(IsoTimestamp(DayZero(year, monthIndex + 1)))).value
              <==> t in ts && YearMonth(t.date.year, t.date.month) == MonthOf(FullYear(year), monthIndex)
  {
    var first, last := MonthStart(year, monthIndex), DayZero(year, monthIndex + 1);
    MidnightRead(first);
    MidnightRead(last);
    DaySelection(ts, IsoTimestamp(first), IsoTimestamp(last), first, last);
    assert MonthRange(year, monthIndex + 1) == Range(first, last);
    forall t | t in ts
      ensures InRange(t.date, Range(first, last)) <==> YearMonth(t.date.year, t.date.month) == MonthOf(FullYear(year), monthIndex)
    {
      InMonthRange(year, monthIndex + 1, t.date);
    }
  }

  /** The timestamp the page writes for a day is read back as that day's midnight. */
  lemma MidnightRead(d: Date)
    requires IsCalendarDate(d) && 0 <= d.year <= 9999
    ensures IsoTimestamp(d) != "" && ParseInstant(IsoTimestamp(d)) == Some(Midnight(d))
  {
    IsoStringRoundTrip(Midnight(d));
  }

  /** Bounds read as two midnights select exactly the records dated from the
      first day to the last, both included. */
  lemma DaySelection(ts: seq<Transaction>, start: string, end: string, first: Date, last: Date)
    requires start != "" && end != "" && IsCalendarDate(first) && IsCalendarDate(last)
    requires ParseInstant(start) == Some(Midnight(first)) && ParseInstant(end) == Some(Midnight(last))
    ensures SelectRows(ts, Some(start), Some(end)).Some?
    ensures forall t ::
              t in SelectRows(ts, Some(start), Some(end)).value <==> t in ts && InRange(t.date, Range(first, last))
  {
    forall t | t in ts
      ensures InPeriod(t.date, Midnight(first), Midnight(last)) <==> InRange(t.date, Range(first, last))
    {
      PeriodInDays(t.date, Midnight(first), Midnight(last));
    }
  }

  lemma SortedMembers(picked: seq<Transaction>)
    ensures forall t :: t in ByDateDesc(picked) <==> t in picked
  {
    var r := ByDateDesc(picked);
    forall t ensures t in r <==> t in picked {
      assert t in r <==> t in multiset(r);
      assert t in picked <==> t in multiset(picked);
    }
  }

  lemma SelectedResolve(cats: seq<Category>, ts: seq<Transaction>, rows: seq<Transaction>)
    requires ReferencesResolve(cats, ts) && CalendarDates(ts)
    requires multiset(rows) <= multiset(ts)
    ensures ReferencesResolve(cats, rows) && CalendarDates(rows)
  {
    forall t | t in rows ensures t in ts {
      assert t in multiset(rows);
    }
  }

  /** The join of the last line to the file so far. */
  lemma JoinSnoc(parts: seq<string>, x: string, sep: char)
    requires |parts| >= 1
    ensures Join(parts + [x], sep) == Join(parts, sep) + [sep] + x
    decreases |parts|
  {
    if |parts| == 1 {
      assert parts + [x] == [parts[0], x];
    } else {
      assert (parts + [x])[1..] == parts[1..] + [x];
      JoinSnoc(parts[1..], x, sep);
    }
  }

  lemma AppendLine(head: string, lines: seq<string>, i: nat, sep: char)
    requires i < |lines|
    ensures Join([head] + lines[..i + 1] + [""], sep) == Join([head] + lines[..i] + [""], sep) + lines[i] + [sep]
  {
    var p := [head] + lines[..i];
    JoinSnoc(p, "", sep);
    JoinSnoc(p + [lines[i]], "", sep);
    JoinSnoc(p, lines[i], sep);
    assert lines[..i + 1] == lines[..i] + [lines[i]];
    assert [head] + lines[..i + 1] + [""] == (p + [lines[i]]) + [""];
  }

  lemma FirstLine(head: string, lines: seq<string>, sep: char)
    ensures Join([head] + lines[..0] + [""], sep) == head + [sep]
  {
    assert [head] + lines[..0] + [""] == [head, ""];
  }

  /** `GET`: selects the rows, then writes the file. */
  method ExportCsv(cats: seq<Category>, ts: seq<Transaction>, start: Option<string>, end: Option<string>)
    returns (content: Option<string>)
    requires ReferencesResolve(cats, ts) && CalendarDates(ts)
    ensures content.None? <==> SelectRows(ts, start, end).None?
    ensures content.Some? ==>
      && ReferencesResolve(cats, SelectRows(ts, start, end).value)
      && CalendarDates(SelectRows(ts, start, end).value)
      && content.value == ExportText(cats, SelectRows(ts, start, end).value)
  {
    var selected := SelectRows(ts, start, end);
    if selected.None? {
      return None;
    }
    SelectedResolve(cats, ts, selected.value);
    var text := WriteCsv(cats, selected.value);
    content := Some(text);
  }

  /** `GET`'s writing of the file: every transaction's row formatted, then the
      header line and the rows written out. */
  method WriteCsv(cats: seq<Category>, rows: seq<Transaction>) returns (text: string)
    requires ReferencesResolve(cats, rows) && CalendarDates(rows)
    ensures text == ExportText(cats, rows)
  {
    var lines := ExportRows(cats, rows);
    text := WriteLines(HEADER, lines);
  }

  /** The loop that builds the file line by line after the header line `head`
      (`csvContent += row.join(',') + '\n'`): every line ends with a newline. */
  method WriteLines(head: string, lines: seq<string>) returns (text: string)
    ensures text == Join([head] + lines + [""], '\n')
  {
    text := head + "\n";
    FirstLine(head, lines, '\n');
    var i := 0;
    while i < |lines|
      invariant 0 <= i <= |lines|
      invariant text == Join([head] + lines[..i] + [""], '\n')
    {
      AppendLine(head, lines, i, '\n');
      text := text + lines[i] + "\n";
      i := i + 1;
    }
    assert lines[..|lines|] == lines;
  }

  /** The file always opens with the header line. */
  lemma {:induction false} ExportStartsWithHeader(cats: seq<Category>, rows: seq<Transaction>)
    requires ReferencesResolve(cats, rows) && CalendarDates(rows)
    ensures IsPrefix(HEADER + "\n", ExportText(cats, rows))
  {
    FramedPrefix(HEADER, ExportRows(cats, rows), '\n');
  }

  lemma FramedPrefix(head: string, lines: seq<string>, sep: char)
    ensures IsPrefix(head + [sep], Join([head] + lines + [""], sep))
  {
    var rest := lines + [""];
    assert [head] + lines + [""] == [head] + rest;
    assert Join([head] + rest, sep) == head + [sep] + Join(rest, sep);
  }

  /** When no exported field holds a newline, splitting the file at newlines
      gives back the header, one line per transaction in order, and an empty tail. */
  lemma ExportLines(cats: seq<Category>, rows: seq<Transaction>)
    requires ReferencesResolve(cats, rows) && CalendarDates(rows)
    requires forall line :: line in ExportRows(cats, rows) ==> '\n' !in line
    ensures Split(ExportText(cats, rows), '\n') == [HEADER] + ExportRows(cats, rows) + [""]
  {
    HeaderLine();
    FramedSplit(HEADER, ExportRows(cats, rows), '\n');
  }

  lemma HeaderLine()
    ensures '\n' !in HEADER && HEADER != ""
  {
    NotInJoin(COLUMNS, ',', '\n');
  }

  lemma FramedSplit(head: string, lines: seq<string>, sep: char)
    requires sep !in head
    requires forall line :: line in lines ==> sep !in line
    ensures Split(Join([head] + lines + [""], sep), sep) == [head] + lines + [""]
  {
    FramedParts(lines, head, sep);
    SplitJoin([head] + lines + [""], sep);
  }

  lemma FramedParts(lines: seq<string>, head: string, sep: char)
    requires sep !in head
    requires forall line :: line in lines ==> sep !in line
    ensures forall k :: 0 <= k < |[head] + lines + [""]| ==> sep !in ([head] + lines + [""])[k]
  {
    var parts := [head] + lines + [""];
    forall k | 0 <= k < |parts| ensures sep !in parts[k] {
      if 0 < k < |parts| - 1 {
        assert parts[k] == lines[k - 1];
        assert parts[k] in lines;
      }
    }
  }
}
