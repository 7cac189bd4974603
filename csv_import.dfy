/** CSV import (app/src/app/api/data-management/import-csv/route.ts): the line
    scanner `parseCSVLine`, the file reader `parseCSV` with its header and row
    checks, and the `POST` handler that turns the records into transactions. */
module CsvImport {
  import opened Options
  import opened Text
  import opened Dates
  import opened Ledger

  // ---------------------------------------------------------------------
  // parseCSVLine: a quote-aware scanner
  // ---------------------------------------------------------------------

  /** The scanner from position `s` on, with the quote flag, the field being
      read and the fields already ended. Outside quotes a comma ends the field.
      Inside quotes `""` stands for one quote; any other quote flips the flag
      and is not copied. */
  function Scan(s: string, inQuotes: bool, cur: string, values: seq<string>): (r: seq<string>)
    ensures |r| > |values| && r[..|values|] == values
    decreases |s|
  {
    if s == [] then values + [cur]
    else if s[0] == '"' then
      if inQuotes && |s| > 1 && s[1] == '"' then Scan(s[2..], inQuotes, cur + "\"", values)
      else Scan(s[1..], !inQuotes, cur, values)
    else if s[0] == ',' && !inQuotes then
      var r := Scan(s[1..], inQuotes, "", values + [cur]);
      assert r[..|values|] == r[..|values| + 1][..|values|];
      r
    else Scan(s[1..], inQuotes, cur + [s[0]], values)
  }

  /** `parseCSVLine(line)`: never an empty list of fields. */
  function ParseLine(line: string): (r: seq<string>)
    ensures |r| >= 1
  {
    Scan(line, false, "", [])
  }

  method ParseCsvLine(line: string) returns (values: seq<string>)
    ensures values == ParseLine(line)
  {
    values := [];
    var cur := "";
    var inQuotes := false;
    var i := 0;
    while i < |line|
      invariant 0 <= i <= |line|
      invariant Scan(line[i..], inQuotes, cur, values) == ParseLine(line)
    {
      var c := line[i];
      if c == '"' {
        if inQuotes && i + 1 < |line| && line[i + 1] == '"' {
          assert line[i..][2..] == line[i + 2..];
          cur := cur + "\"";
          i := i + 1;
        } else {
          assert line[i..][1..] == line[i + 1..];
          inQuotes := !inQuotes;
        }
      } else if c == ',' && !inQuotes {
        assert line[i..][1..] == line[i + 1..];
        values := values + [cur];
        cur := "";
      } else {
        assert line[i..][1..] == line[i + 1..];
        cur := cur + [c];
      }
      i := i + 1;
    }
    values := values + [cur];
  }

  /** The number of commas the scanner meets outside quotes, from the same state. */
  function UnquotedCommas(s: string, inQuotes: bool): nat
    decreases |s|
  {
    if s == [] then 0
    else if s[0] == '"' then
      if inQuotes && |s| > 1 && s[1] == '"' then UnquotedCommas(s[2..], inQuotes)
      else UnquotedCommas(s[1..], !inQuotes)
    else if s[0] == ',' && !inQuotes then 1 + UnquotedCommas(s[1..], inQuotes)
    else UnquotedCommas(s[1..], inQuotes)
  }

  lemma {:induction false} ScanCount(s: string, inQuotes: bool, cur: string, values: seq<string>)
    ensures |Scan(s, inQuotes, cur, values)| == |values| + 1 + UnquotedCommas(s, inQuotes)
    decreases |s|
  {
    if s == [] {
    } else if s[0] == '"' {
      if inQuotes && |s| > 1 && s[1] == '"' {
        ScanCount(s[2..], inQuotes, cur + "\"", values);
      } else {
        ScanCount(s[1..], !inQuotes, cur, values);
      }
    } else if s[0] == ',' && !inQuotes {
      ScanCount(s[1..], inQuotes, "", values + [cur]);
    } else {
      ScanCount(s[1..], inQuotes, cur + [s[0]], values);
    }
  }

  /** One field more than the commas met outside quotes. */
  lemma FieldCount(line: string)
    ensures |ParseLine(line)| == 1 + UnquotedCommas(line, false)
  {
    ScanCount(line, false, "", []);
  }

  /** Without any double quote, the scanner is a plain split at commas. */
  lemma {:induction false} ScanWithoutQuotes(s: string, cur: string, values: seq<string>)
    requires '"' !in s
    ensures Scan(s, false, cur, values) == values + [cur + Split(s, ',')[0]] + Split(s, ',')[1..]
    decreases |s|
  {
    if s == [] {
      assert cur + "" == cur;
    } else {
      assert '"' !in s[1..] by {
        forall k | 0 <= k < |s[1..]| ensures s[1..][k] != '"' {
          assert s[1..][k] == s[k + 1];
        }
      }
      if s[0] == ',' {
        ScanWithoutQuotes(s[1..], "", values + [cur]);
        ScanComma(s, cur, values);
      } else {
        ScanWithoutQuotes(s[1..], cur + [s[0]], values);
        ScanOther(s, cur, values);
      }
    }
  }

  /** A comma closes the current field. */
  lemma ScanComma(s: string, cur: string, values: seq<string>)
    requires s != [] && s[0] == ','
    requires Scan(s[1..], false, "", values + [cur])
      == values + [cur] + ["" + Split(s[1..], ',')[0]] + Split(s[1..], ',')[1..]
    ensures Scan(s, false, cur, values) == values + [cur + Split(s, ',')[0]] + Split(s, ',')[1..]
  {
    ScanCommaUnfold(s, cur, values);
    SplitCommaUnfold(s);
    CommaFields(values, cur, Split(s[1..], ','));
  }

  lemma ScanCommaUnfold(s: string, cur: string, values: seq<string>)
    requires s != [] && s[0] == ','
    ensures Scan(s, false, cur, values) == Scan(s[1..], false, "", values + [cur])
  {
  }

  lemma SplitCommaUnfold(s: string)
    requires s != [] && s[0] == ','
    ensures Split(s, ',') == [""] + Split(s[1..], ',')
  {
  }

  lemma CommaFields(values: seq<string>, cur: string, rest: seq<string>)
    requires rest != []
    ensures values + [cur] + ["" + rest[0]] + rest[1..] == values + [cur + ([""] + rest)[0]] + ([""] + rest)[1..]
  {
    assert "" + rest[0] == rest[0];
    assert cur + "" == cur;
    assert ([""] + rest)[1..] == rest == [rest[0]] + rest[1..];
  }

  /** Any other character than a comma or a quote joins the current field. */
  lemma ScanOther(s: string, cur: string, values: seq<string>)
    requires s != [] && s[0] != ',' && s[0] != '"'
    requires Scan(s[1..], false, cur + [s[0]], values)
      == values + [cur + [s[0]] + Split(s[1..], ',')[0]] + Split(s[1..], ',')[1..]
    ensures Scan(s, false, cur, values) == values + [cur + Split(s, ',')[0]] + Split(s, ',')[1..]
  {
    ScanOtherUnfold(s, cur, values);
    SplitOtherUnfold(s);
    OtherFields(values, cur, s[0], Split(s[1..], ','));
  }

  lemma ScanOtherUnfold(s: string, cur: string, values: seq<string>)
    requires s != [] && s[0] != ',' && s[0] != '"'
    ensures Scan(s, false, cur, values) == Scan(s[1..], false, cur + [s[0]], values)
  {
  }

  lemma SplitOtherUnfold(s: string)
    requires s != [] && s[0] != ','
    ensures Split(s, ',') == [[s[0]] + Split(s[1..], ',')[0]] + Split(s[1..], ',')[1..]
  {
  }

  lemma OtherFields(values: seq<string>, cur: string, c: char, rest: seq<string>)
    requires rest != []
    ensures values + [cur + [c] + rest[0]] + rest[1..]
      == values + [cur + ([[c] + rest[0]] + rest[1..])[0]] + ([[c] + rest[0]] + rest[1..])[1..]
  {
    assert cur + [c] + rest[0] == cur + ([c] + rest[0]);
  }

  lemma ParseLineWithoutQuotes(line: string)
    requires '"' !in line
    ensures ParseLine(line) == Split(line, ',')
  {
    ScanWithoutQuotes(line, "", []);
    assert "" + Split(line, ',')[0] == Split(line, ',')[0];
    assert [Split(line, ',')[0]] + Split(line, ',')[1..] == Split(line, ',');
  }

  // ---------------------------------------------------------------------
  // Field conversions
  // ---------------------------------------------------------------------

  /** `isValidDate`: the `YYYY-MM-DD` shape and a date the engine accepts. */
  predicate IsValidDate(s: string) {
    ParseDay(s).Some?
  }

  // ---------------------------------------------------------------------
  // parseCSV
  // ---------------------------------------------------------------------

  /** A parsed row (`CsvRecord`), with the date already read. */
  datatype CsvRecord = CsvRecord(kind: string, amount: int, date: Date, category: string, memo: string)

  /** The messages of `errors`, by kind; `line` is the one-based line number. */
  datatype ParseError =
    | EmptyFile
    | MissingHeader(header: string)
    | RowError(line: nat, problem: RowProblem)

  /** Why a data line was rejected. */
  datatype RowProblem = ColumnCount(found: nat, expected: nat) | BadType | BadAmount | BadDate

  datatype Parsed = Parsed(records: seq<CsvRecord>, errors: seq<ParseError>)

  const REQUIRED: seq<string> := ["type", "amount", "date", "category"]

  /** One error per required header the header line lacks, in the order of `required`. */
  function MissingHeaders(headers: seq<string>, required: seq<string>): (errs: seq<ParseError>)
    ensures |errs| <= |required|
    ensures forall e :: e in errs ==> e.MissingHeader? && e.header in required && e.header !in headers
    ensures errs == [] <==> forall h :: h in required ==> h in headers
  {
    if required == [] then []
    else
      var last := required[|required| - 1];
      var init := required[..|required| - 1];
      assert forall h :: h in required <==> h in init || h == last;
      MissingHeaders(headers, init) + (if last !in headers then [MissingHeader(last)] else [])
  }

  /** The index whose value `record[name]` ends up holding: `forEach` assigns
      every column in turn, so the last column with that name wins. */
  function LastIndex(headers: seq<string>, name: string): (k: nat)
    requires name in headers
    ensures k < |headers| && headers[k] == name
    ensures forall j :: k < j < |headers| ==> headers[j] != name
  {
    if headers[|headers| - 1] == name then |headers| - 1
    else
      assert name in headers[..|headers| - 1] by {
        var j :| 0 <= j < |headers| && headers[j] == name;
        assert headers[..|headers| - 1][j] == name;
      }
      LastIndex(headers[..|headers| - 1], name)
  }

  /** What one data line contributes. */
  datatype LineOutcome = Skip | Reject(error: ParseError) | Accept(record: CsvRecord)

  /** The checks on the data line numbered `lineNo`, in the order the loop makes them. */
  function ReadLine(headers: seq<string>, raw: string, lineNo: nat): (o: LineOutcome)
    requires forall h :: h in REQUIRED ==> h in headers
    ensures o.Skip? <==> Trim(raw) == ""
    ensures o.Reject? ==> o.error.RowError? && o.error.line == lineNo
    ensures o.Accept? ==> IsTransactionType(o.record.kind) && IsCalendarDate(o.record.date)
  {
    var line := Trim(raw);
    if line == "" then Skip
    else
      var values := ParseLine(line);
      if |values| != |headers| then Reject(RowError(lineNo, ColumnCount(|values|, |headers|)))
      else
        assert "type" in REQUIRED && "amount" in REQUIRED && "date" in REQUIRED && "category" in REQUIRED;
        var kind := values[LastIndex(headers, "type")];
        var amount := ParseNumber(values[LastIndex(headers, "amount")]);
        var date := ParseDay(values[LastIndex(headers, "date")]);
        var memo := if "memo" in headers then values[LastIndex(headers, "memo")] else "";
        if kind != INCOME && kind != EXPENSE then Reject(RowError(lineNo, BadType))
        else if amount.None? then Reject(RowError(lineNo, BadAmount))
        else if date.None? then Reject(RowError(lineNo, BadDate))
        else Accept(CsvRecord(kind, amount.value, date.value, values[LastIndex(headers, "category")], memo))
  }

  /** The outcomes of lines 1 .. n-1 (the header is line 0), in file order. */
  function Outcomes(headers: seq<string>, lines: seq<string>, n: nat): (os: seq<LineOutcome>)
    requires forall h :: h in REQUIRED ==> h in headers
    requires n <= |lines|
    ensures |os| == if n == 0 then 0 else n - 1
  {
    if n <= 1 then [] else Outcomes(headers, lines, n - 1) + [ReadLine(headers, lines[n - 1], n)]
  }

  function Accepted(os: seq<LineOutcome>): seq<CsvRecord> {
    if os == [] then []
    else Accepted(os[..|os| - 1]) + (if os[|os| - 1].Accept? then [os[|os| - 1].record] else [])
  }

  function Rejected(os: seq<LineOutcome>): seq<ParseError> {
    if os == [] then []
    else Rejected(os[..|os| - 1]) + (if os[|os| - 1].Reject? then [os[|os| - 1].error] else [])
  }

  /** `parseCSV(content)`. */
  function ParseCsvSpec(content: string): Parsed {
    var lines := Split(content, '\n');
    if lines[0] == "" then Parsed([], [EmptyFile])
    else
      var headers := Split(lines[0], ',');
      var missing := MissingHeaders(headers, REQUIRED);
      if missing != [] then Parsed([], missing)
      else
        var os := Outcomes(headers, lines, |lines|);
        Parsed(Accepted(os), Rejected(os))
  }

  method ParseCsv(content: string) returns (p: Parsed)
    ensures p == ParseCsvSpec(content)
  {
    var lines := Split(content, '\n');
    var headerLine := lines[0];
    if headerLine == "" {
      return Parsed([], [EmptyFile]);
    }
    var headers := Split(headerLine, ',');
    var missing := CheckHeaders(headers);
    if |missing| > 0 {
      return Parsed([], missing);
    }
    p := ReadRows(headers, lines);
  }

  /** The loop over `requiredHeaders`. */
  method CheckHeaders(headers: seq<string>) returns (errors: seq<ParseError>)
    ensures errors == MissingHeaders(headers, REQUIRED)
  {
    errors := [];
    for k := 0 to |REQUIRED|
      invariant errors == MissingHeaders(headers, REQUIRED[..k])
    {
      assert REQUIRED[..k + 1][..k] == REQUIRED[..k];
      if REQUIRED[k] !in headers {
        errors := errors + [MissingHeader(REQUIRED[k])];
      }
    }
    assert REQUIRED[..|REQUIRED|] == REQUIRED;
  }

  /** The loop over the data lines. */
  method ReadRows(headers: seq<string>, lines: seq<string>) returns (p: Parsed)
    requires forall h :: h in REQUIRED ==> h in headers
    ensures p == Parsed(Accepted(Outcomes(headers, lines, |lines|)), Rejected(Outcomes(headers, lines, |lines|)))
  {
    var records: seq<CsvRecord> := [];
    var errors: seq<ParseError> := [];
    if |lines| <= 1 {
      return Parsed(records, errors);
    }
    var i := 1;
    while i < |lines|
      invariant 1 <= i <= |lines|
      invariant records == Accepted(Outcomes(headers, lines, i))
      invariant errors == Rejected(Outcomes(headers, lines, i))
    {
      OutcomesStep(headers, lines, i);
      var o := ReadDataLine(headers, lines[i], i + 1);
      match o {
        case Skip =>
        case Reject(e) => errors := errors + [e];
        case Accept(r) => records := records + [r];
      }
      i := i + 1;
    }
    p := Parsed(records, errors);
  }

  /** The body of the loop over data lines, for the line numbered `lineNo`. */
  method ReadDataLine(headers: seq<string>, raw: string, lineNo: nat) returns (o: LineOutcome)
    requires forall h :: h in REQUIRED ==> h in headers
    ensures o == ReadLine(headers, raw, lineNo)
  {
    var line := Trim(raw);
    if line == "" {
      return Skip;
    }
    var values := ParseCsvLine(line);
    if |values| != |headers| {
      return Reject(RowError(lineNo, ColumnCount(|values|, |headers|)));
    }
    assert "type" in REQUIRED && "amount" in REQUIRED && "date" in REQUIRED && "category" in REQUIRED;
    var kind := values[LastIndex(headers, "type")];
    if kind != INCOME && kind != EXPENSE {
      return Reject(RowError(lineNo, BadType));
    }
    var amount := ParseNumber(values[LastIndex(headers, "amount")]);
    if amount.None? {
      return Reject(RowError(lineNo, BadAmount));
    }
    var date := ParseDay(values[LastIndex(headers, "date")]);
    if date.None? {
      return Reject(RowError(lineNo, BadDate));
    }
    var memo := if "memo" in headers then values[LastIndex(headers, "memo")] else "";
    o := Accept(CsvRecord(kind, amount.value, date.value, values[LastIndex(headers, "category")], memo));
  }

  lemma OutcomesStep(headers: seq<string>, lines: seq<string>, i: nat)
    requires forall h :: h in REQUIRED ==> h in headers
    requires 1 <= i < |lines|
    ensures var o := ReadLine(headers, lines[i], i + 1);
      && Accepted(Outcomes(headers, lines, i + 1)) == Accepted(Outcomes(headers, lines, i)) + (if o.Accept? then [o.record] else [])
      && Rejected(Outcomes(headers, lines, i + 1)) == Rejected(Outcomes(headers, lines, i)) + (if o.Reject? then [o.error] else [])
  {
    var os := Outcomes(headers, lines, i + 1);
    assert os[..|os| - 1] == Outcomes(headers, lines, i);
  }

  // ---------------------------------------------------------------------
  // Properties of parseCSV
  // ---------------------------------------------------------------------

  /** An empty first line gives no record and exactly one error. */
  lemma EmptyHeaderLine(content: string)
    requires Split(content, '\n')[0] == ""
    ensures ParseCsvSpec(content) == Parsed([], [EmptyFile])
  {
  }

  /** A header line without a required name gives no record, and one error per missing name. */
  lemma MissingHeaderRejectsAll(content: string, h: string)
    requires Split(content, '\n')[0] != ""
    requires h in REQUIRED && h !in Split(Split(content, '\n')[0], ',')
    ensures ParseCsvSpec(content).records == []
    ensures MissingHeader(h) in ParseCsvSpec(content).errors
    ensures forall e :: e in ParseCsvSpec(content).errors ==> e.MissingHeader? && e.header in REQUIRED
  {
    var headers := Split(Split(content, '\n')[0], ',');
    MissingNamed(headers, REQUIRED, h);
  }

  lemma {:induction false} MissingNamed(headers: seq<string>, required: seq<string>, h: string)
    requires h in required && h !in headers
    ensures MissingHeader(h) in MissingHeaders(headers, required)
    decreases |required|
  {
    var last := required[|required| - 1];
    var init := required[..|required| - 1];
    if h != last {
      assert h in init by {
        var j :| 0 <= j < |required| && required[j] == h;
        assert init[j] == h;
      }
      MissingNamed(headers, init, h);
    }
  }

  /** The positions in `required` of the names the header line lacks, ascending. */
  ghost function MissingPositions(headers: seq<string>, required: seq<string>): seq<nat> {
    if required == [] then []
    else
      MissingPositions(headers, required[..|required| - 1])
      + (if required[|required| - 1] !in headers then [|required| - 1] else [])
  }

  /** Missing positions are ascending positions of absent names, and every
      absent name's position is among them. */
  lemma {:induction false} MissingPositionsFacts(headers: seq<string>, required: seq<string>)
    ensures forall i :: 0 <= i < |MissingPositions(headers, required)| ==>
      MissingPositions(headers, required)[i] < |required|
      && required[MissingPositions(headers, required)[i]] !in headers
    ensures forall i, j :: 0 <= i < j < |MissingPositions(headers, required)| ==>
      MissingPositions(headers, required)[i] < MissingPositions(headers, required)[j]
    ensures forall a :: 0 <= a < |required| && required[a] !in headers ==> a in MissingPositions(headers, required)
    decreases |required|
  {
    if required != [] {
      var init := required[..|required| - 1];
      MissingPositionsFacts(headers, init);
      var before := MissingPositions(headers, init);
      var pos := MissingPositions(headers, required);
      assert pos[..|before|] == before;
      forall i | 0 <= i < |before|
        ensures pos[i] < |required| - 1 && required[pos[i]] !in headers
      {
        assert pos[i] == before[i] && init[before[i]] == required[before[i]];
      }
      forall a | 0 <= a < |required| - 1 && required[a] !in headers
        ensures a in pos
      {
        assert init[a] == required[a];
        var i :| 0 <= i < |before| && before[i] == a;
        assert pos[i] == a;
      }
    }
  }

  /** `for (const requiredHeader of requiredHeaders)`: the errors name the
      absent headers one by one, in the order of `required`. */
  lemma {:induction false} MissingHeadersInOrder(headers: seq<string>, required: seq<string>)
    ensures |MissingHeaders(headers, required)| == |MissingPositions(headers, required)|
    ensures forall i :: 0 <= i < |MissingPositions(headers, required)| ==>
      MissingPositions(headers, required)[i] < |required|
      && MissingHeaders(headers, required)[i] == MissingHeader(required[MissingPositions(headers, required)[i]])
    decreases |required|
  {
    if required != [] {
      var init := required[..|required| - 1];
      MissingHeadersInOrder(headers, init);
      MissingPositionsFacts(headers, init);
      var before, errsBefore := MissingPositions(headers, init), MissingHeaders(headers, init);
      var pos, errs := MissingPositions(headers, required), MissingHeaders(headers, required);
      assert pos[..|before|] == before;
      assert errs[..|errsBefore|] == errsBefore;
      forall i | 0 <= i < |before|
        ensures pos[i] < |required| && errs[i] == MissingHeader(required[pos[i]])
      {
        assert pos[i] == before[i] && errs[i] == errsBefore[i];
        assert init[before[i]] == required[before[i]];
      }
    }
  }

  /** With distinct required names, no header is reported twice. */
  lemma MissingHeadersDistinct(headers: seq<string>, required: seq<string>)
    requires forall a, b :: 0 <= a < b < |required| ==> required[a] != required[b]
    ensures forall i, j :: 0 <= i < j < |MissingHeaders(headers, required)| ==>
      MissingHeaders(headers, required)[i] != MissingHeaders(headers, required)[j]
  {
    MissingHeadersInOrder(headers, required);
    MissingPositionsFacts(headers, required);
  }

  /** Every record read has type income or expense and a calendar date. */
  lemma {:induction false} AcceptedValid(os: seq<LineOutcome>)
    requires forall o :: o in os && o.Accept? ==> IsTransactionType(o.record.kind) && IsCalendarDate(o.record.date)
    ensures forall r :: r in Accepted(os) ==> IsTransactionType(r.kind) && IsCalendarDate(r.date)
    decreases |os|
  {
    if os != [] {
      assert forall o :: o in os[..|os| - 1] ==> o in os;
      AcceptedValid(os[..|os| - 1]);
    }
  }

  lemma {:induction false} OutcomesFacts(headers: seq<string>, lines: seq<string>, n: nat)
    requires forall h :: h in REQUIRED ==> h in headers
    requires n <= |lines|
    ensures forall o :: o in Outcomes(headers, lines, n) && o.Accept? ==>
      IsTransactionType(o.record.kind) && IsCalendarDate(o.record.date)
    ensures forall o :: o in Outcomes(headers, lines, n) && o.Reject? ==> o.error.RowError? && 2 <= o.error.line <= n
    decreases n
  {
    if n > 1 {
      OutcomesFacts(headers, lines, n - 1);
    }
  }

  /** The records `parseCSV` returns are well-typed transactions-to-be. */
  lemma ParsedRecordsValid(content: string)
    ensures forall r :: r in ParseCsvSpec(content).records ==> IsTransactionType(r.kind) && IsCalendarDate(r.date)
  {
    var lines := Split(content, '\n');
    if lines[0] != "" {
      var headers := Split(lines[0], ',');
      if MissingHeaders(headers, REQUIRED) == [] {
        OutcomesFacts(headers, lines, |lines|);
        AcceptedValid(Outcomes(headers, lines, |lines|));
      }
    }
  }

  /** The number of data lines that are not blank after trimming. */
  function NonBlank(lines: seq<string>, n: nat): nat
    requires n <= |lines|
  {
    if n <= 1 then 0 else NonBlank(lines, n - 1) + (if Trim(lines[n - 1]) != "" then 1 else 0)
  }

  lemma {:induction false} OutcomeCount(headers: seq<string>, lines: seq<string>, n: nat)
    requires forall h :: h in REQUIRED ==> h in headers
    requires n <= |lines|
    ensures |Accepted(Outcomes(headers, lines, n))| + |Rejected(Outcomes(headers, lines, n))| == NonBlank(lines, n)
    decreases n
  {
    if n > 1 {
      OutcomeCount(headers, lines, n - 1);
      OutcomesStep(headers, lines, n - 1);
    }
  }

  /** Once the header is accepted, every non-blank data line gives exactly
      one record or exactly one error, and blank lines give neither. */
  lemma OneResultPerLine(content: string)
    requires Split(content, '\n')[0] != ""
    requires MissingHeaders(Split(Split(content, '\n')[0], ','), REQUIRED) == []
    ensures |ParseCsvSpec(content).records| + |ParseCsvSpec(content).errors|
      == NonBlank(Split(content, '\n'), |Split(content, '\n')|)
  {
    var lines := Split(content, '\n');
    OutcomeCount(Split(lines[0], ','), lines, |lines|);
  }

  /** Every row error names a data line: between 2 and the number of lines. */
  lemma ErrorLineNumbers(content: string)
    requires Split(content, '\n')[0] != ""
    requires MissingHeaders(Split(Split(content, '\n')[0], ','), REQUIRED) == []
    ensures forall e :: e in ParseCsvSpec(content).errors ==> e.RowError? && 2 <= e.line <= |Split(content, '\n')|
  {
    var lines := Split(content, '\n');
    var headers := Split(lines[0], ',');
    OutcomesFacts(headers, lines, |lines|);
    RejectedFrom(Outcomes(headers, lines, |lines|));
  }

  lemma {:induction false} RejectedFrom(os: seq<LineOutcome>)
    ensures forall e :: e in Rejected(os) ==> exists o :: o in os && o.Reject? && o.error == e
    decreases |os|
  {
    if os != [] {
      RejectedFrom(os[..|os| - 1]);
      assert forall o :: o in os[..|os| - 1] ==> o in os;
      assert os[|os| - 1] in os;
    }
  }

  // ---------------------------------------------------------------------
  // POST: turning records into transactions
  // ---------------------------------------------------------------------

  /** The category a record is filed under: the first category of the
      record's type with the record's category name, else the type's default
      `その他`, else none. */
  function ResolveCategory(cats: seq<Category>, r: CsvRecord): (id: Option<Id>)
    ensures id.Some? ==> exists c :: c in cats && c.id == id.value && c.kind == r.kind
  {
    var named := FindNamed(cats, r.kind, r.category);
    if named.Some? then Some(named.value.id)
    else
      var other := FindDefaultOther(cats, r.kind);
      if other.Some? then Some(other.value.id) else None
  }

  /** `find` returns the first match. */
  lemma {:induction false} FindNamedFirst(cats: seq<Category>, kind: string, name: string, j: nat)
    requires j < |cats| && cats[j].kind == kind && cats[j].name == name
    requires forall i :: 0 <= i < j ==> !(cats[i].kind == kind && cats[i].name == name)
    ensures FindNamed(cats, kind, name) == Some(cats[j])
    decreases j
  {
    if j > 0 {
      FindNamedFirst(cats[1..], kind, name, j - 1);
    }
  }

  /** The transactions the import loop creates, with ids handed out from `next`. */
  function Created(cats: seq<Category>, records: seq<CsvRecord>, next: Id): (ts: seq<Transaction>)
    ensures |ts| <= |records|
  {
    if records == [] then []
    else
      var rest := records[..|records| - 1];
      var r := records[|records| - 1];
      var before := Created(cats, rest, next);
      var id := ResolveCategory(cats, r);
      if id.Some? then before + [Transaction(next + |before|, r.kind, r.amount, r.date, id.value, r.memo)]
      else before
  }

  /** Every created transaction is filed under a stored category of its own
      type and carries a fresh id, counted up from `next`. */
  lemma {:induction false} CreatedFacts(cats: seq<Category>, records: seq<CsvRecord>, next: Id)
    ensures forall k :: 0 <= k < |Created(cats, records, next)| ==>
      var t := Created(cats, records, next)[k];
      HasCategory(cats, t.categoryId) && t.id == next + k
    decreases |records|
  {
    if records != [] {
      CreatedFacts(cats, records[..|records| - 1], next);
    }
  }

  /** The records the loop reports as failed (`errorRecords`). */
  function Failed(cats: seq<Category>, records: seq<CsvRecord>): seq<CsvRecord> {
    if records == [] then []
    else
      var rest := records[..|records| - 1];
      var r := records[|records| - 1];
      Failed(cats, rest) + (if ResolveCategory(cats, r).None? then [r] else [])
  }

  /** imported + failed equals the number of records. */
  lemma {:induction false} ImportedPlusFailed(cats: seq<Category>, records: seq<CsvRecord>, next: Id)
    ensures |Created(cats, records, next)| + |Failed(cats, records)| == |records|
    decreases |records|
  {
    if records != [] {
      ImportedPlusFailed(cats, records[..|records| - 1], next);
    }
  }

  /** When both types have their default `その他`, no record fails. */
  lemma {:induction false} DefaultsCatchAll(cats: seq<Category>, records: seq<CsvRecord>, next: Id)
    requires forall r :: r in records ==> FindDefaultOther(cats, r.kind).Some?
    ensures Failed(cats, records) == []
    ensures |Created(cats, records, next)| == |records|
    decreases |records|
  {
    if records != [] {
      assert records[|records| - 1] in records;
      assert forall r :: r in records[..|records| - 1] ==> r in records;
      DefaultsCatchAll(cats, records[..|records| - 1], next);
    }
  }

  /** A record whose type and name match a category is filed under the first such category. */
  lemma ResolveByName(cats: seq<Category>, r: CsvRecord, j: nat)
    requires j < |cats| && cats[j].kind == r.kind && cats[j].name == r.category
    requires forall i :: 0 <= i < j ==> !(cats[i].kind == r.kind && cats[i].name == r.category)
    ensures ResolveCategory(cats, r) == Some(cats[j].id)
  {
    FindNamedFirst(cats, r.kind, r.category, j);
  }

  lemma CreatedStep(cats: seq<Category>, records: seq<CsvRecord>, k: nat, first: Id)
    requires k < |records|
    ensures var before := Created(cats, records[..k], first);
      var r := records[k];
      var id := ResolveCategory(cats, r);
      && Created(cats, records[..k + 1], first)
        == before + (if id.Some? then [Transaction(first + |before|, r.kind, r.amount, r.date, id.value, r.memo)] else [])
      && Failed(cats, records[..k + 1]) == Failed(cats, records[..k]) + (if id.None? then [r] else [])
  {
    assert records[..k + 1][..k] == records[..k];
  }

  datatype ImportResult =
    | NoFile
    | ParseFailed(errors: seq<ParseError>)
    | NothingToImport
    | Imported(imported: nat, failed: seq<CsvRecord>)

  /** `POST`: the whole import. `file` is the uploaded file's text (`None`
      when there is no file) and `mode` the form's mode field. */
  method ImportCsv(store: Store, file: Option<string>, mode: string) returns (result: ImportResult)
    requires store.Valid()
    modifies store
    ensures store.Valid()
    ensures result == NoFile <==> file.None?
    ensures result.ParseFailed? <==> file.Some? && ParseCsvSpec(file.value).errors != []
    ensures result.ParseFailed? ==> result.errors == ParseCsvSpec(file.value).errors
    ensures result == NothingToImport <==> file.Some? && ParseCsvSpec(file.value) == Parsed([], [])
    ensures result.Imported? <==>
      file.Some? && ParseCsvSpec(file.value).errors == [] && ParseCsvSpec(file.value).records != []
    ensures !result.Imported? ==> unchanged(store)
    ensures result.Imported? ==>
      var records := ParseCsvSpec(file.value).records;
      var kept := if mode == "replace" then [] else old(store.transactions);
      var created := Created(old(store.categories), records, old(store.nextId));
      && file.Some? && ParseCsvSpec(file.value).errors == [] && records != []
      && store.categories == old(store.categories)
      && store.transactions == kept + created
      && store.nextId == old(store.nextId) + |created|
      && result.imported == |created|
      && result.failed == Failed(old(store.categories), records)
  {
    if file.None? {
      return NoFile;
    }
    var parsed := ParseCsv(file.value);
    if |parsed.errors| > 0 {
      return ParseFailed(parsed.errors);
    }
    if |parsed.records| == 0 {
      return NothingToImport;
    }
    ParsedRecordsValid(file.value);
    if mode == "replace" {
      store.DeleteAllTransactions();
    }
    var imported, failed := CreateAll(store, parsed.records);
    result := Imported(imported, failed);
  }

  lemma SnocAssoc(a: seq<Transaction>, b: seq<Transaction>, t: Transaction)
    ensures a + b + [t] == a + (b + [t])
  {
  }

  /** The `try` block for one record: resolve its category against the stored
      categories and create the transaction, or report the record as failed. */
  method ImportRecord(store: Store, r: CsvRecord) returns (created: bool)
    requires store.Valid() && IsCalendarDate(r.date)
    modifies store
    ensures store.Valid() && store.categories == old(store.categories)
    ensures created <==> ResolveCategory(old(store.categories), r).Some?
    ensures created ==>
      && store.transactions == old(store.transactions)
        + [Transaction(old(store.nextId), r.kind, r.amount, r.date, ResolveCategory(old(store.categories), r).value, r.memo)]
      && store.nextId == old(store.nextId) + 1
    ensures !created ==> store.transactions == old(store.transactions) && store.nextId == old(store.nextId)
  {
    var id := ResolveCategory(store.categories, r);
    if id.None? {
      return false;
    }
    assert HasCategory(store.categories, id.value);
    var t := store.CreateTransaction(r.kind, r.amount, r.date, id.value, r.memo);
    created := true;
  }

  /** The state of the import loop after the first `k` records. */
  ghost predicate Progress(store: Store, cats: seq<Category>, records: seq<CsvRecord>, k: nat,
                           kept: seq<Transaction>, first: Id, imported: nat, failed: seq<CsvRecord>)
    reads store
    requires k <= |records|
  {
    && store.Valid() && store.categories == cats
    && store.transactions == kept + Created(cats, records[..k], first)
    && imported == |Created(cats, records[..k], first)|
    && store.nextId == first + imported
    && failed == Failed(cats, records[..k])
  }

  /** One turn of the import loop: record `k` is created or counted as failed. */
  method ImportNext(store: Store, cats: seq<Category>, records: seq<CsvRecord>, k: nat,
                    ghost kept: seq<Transaction>, ghost first: Id, imported: nat, failed: seq<CsvRecord>)
    returns (imported': nat, failed': seq<CsvRecord>)
    requires k < |records| && IsCalendarDate(records[k].date)
    requires Progress(store, cats, records, k, kept, first, imported, failed)
    modifies store
    ensures Progress(store, cats, records, k + 1, kept, first, imported', failed')
  {
    var r := records[k];
    CreatedStep(cats, records, k, first);
    ghost var before := Created(cats, records[..k], first);
    var created := ImportRecord(store, r);
    imported', failed' := imported, failed;
    if created {
      SnocAssoc(kept, before, store.transactions[|store.transactions| - 1]);
      imported' := imported + 1;
    } else {
      failed' := failed + [r];
    }
  }

  /** The `for (const record of records)` loop: each record resolved against the
      categories as they stand, then created or reported as failed. */
  method CreateAll(store: Store, records: seq<CsvRecord>) returns (imported: nat, failed: seq<CsvRecord>)
    requires store.Valid()
    requires forall r :: r in records ==> IsCalendarDate(r.date)
    modifies store
    ensures store.Valid()
    ensures store.categories == old(store.categories)
    ensures store.transactions == old(store.transactions) + Created(old(store.categories), records, old(store.nextId))
    ensures store.nextId == old(store.nextId) + imported
    ensures imported == |Created(old(store.categories), records, old(store.nextId))|
    ensures failed == Failed(old(store.categories), records)
  {
    var cats := store.categories;
    ghost var kept := store.transactions;
    ghost var first := store.nextId;
    imported := 0;
    failed := [];
    var k := 0;
    while k < |records|
      invariant 0 <= k <= |records|
      invariant Progress(store, cats, records, k, kept, first, imported, failed)
    {
      assert records[k] in records;
      imported, failed := ImportNext(store, cats, records, k, kept, first, imported, failed);
      k := k + 1;
    }
    assert records[..|records|] == records;
  }
}
