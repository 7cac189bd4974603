# homeApp household ledger — a verified Dafny model

homeApp is a household-finance web application. It keeps income and expense
transactions, each filed under a category, and offers:

- a CSV export and a CSV import of the transactions;
- a restore from a JSON backup, which reconciles the backup's categories
  with the stored ones;
- validated creation of categories and transactions;
- a dashboard with month totals, spending per category, budgets and alerts;
- three analysis reports: the month compared with the month before and the
  same month a year earlier, the balance of the last six months, and the
  month's expenses per category.

This project models the route handlers behind these features and the view
helpers that present them: the budget bars, the comparison chart and the
filtered transaction list. It proves what each promises.

The store is the class `Ledger.Store`. It has a category list, a transaction
list and an id counter. Its methods are the store calls the routes make:
create, update, delete and the foreign-key check a transaction creation
makes. The routes that change the store are methods over it:

- `CsvImport.ImportCsv`
- `Restore.RestoreBackup`
- `CategorySettings.PostCategory`
- `TransactionsRoute.PostTransaction`

Each state-changing method is proved against a specification function of
the old state, for example `CsvImport.Created` and `Restore.CategoryPhase`,
and the properties are proved about those functions. The read-only routes
are specified in the same way:

- the CSV export and the month analyses are functions with loops proved
  against them;
- the dashboard is a method whose result is tied to specification functions.

The JavaScript built-ins the code relies on are written out in `Text` and
`Dates`:

- `split`, `join`, `trim`, `Number()`, `padStart`, `Math.round`,
  `toLowerCase` and `includes`;
- `new Date(y, m, d)` with its month carry and its two-digit years;
- `toISOString`;
- how V8 reads a `YYYY-MM-DD` text and a UTC timestamp.

Files:

| file | module | models |
|---|---|---|
| options.dfy | Options | `Option` |
| text.dfy | Text | string and number built-ins |
| dates.dfy | Dates | `Date` construction, ranges, ISO day texts and timestamps |
| sorting.dfy | Sorting | stable sorting for `orderBy` and `Array.sort` |
| grouping.dfy | Grouping | the keyed accumulation the routes do with `reduce`/`Map` |
| ledger.dfy | Ledger | categories, transactions, queries, the store |
| csv_export.dfy | CsvExport | `GET /api/data-management/export-csv` |
| csv_import.dfy | CsvImport | `POST /api/data-management/import-csv` |
| csv_roundtrip.dfy | CsvRoundTrip | export followed by import |
| csv_line_breaks.dfy | CsvLineBreaks | an exported memo with a line break that the import rejects |
| restore.dfy | Restore | `POST /api/data-management/restore` |
| categories_route.dfy | CategorySettings | `GET`/`POST /api/settings/categories` |
| transactions_route.dfy | TransactionsRoute | `POST /api/transactions` |
| dashboard.dfy | Dashboard | `GET /api/dashboard` |
| comparison.dfy | Comparison | `GET /api/analysis/comparison` |
| monthly_balance.dfy | MonthlyBalance | `GET /api/analysis/monthly-balance` |
| category_expenses.dfy | CategoryExpenses | `GET /api/analysis/category-expenses` |
| budget_progress.dfy | BudgetProgress | the dashboard's budget bars |
| comparison_report.dfy | ComparisonReport | the comparison chart and percentages |
| transaction_list.dfy | TransactionList | the transaction list's search, filters and edit form |

## Model

| member | source | states |
|---|---|---|
| Text.NatToString | app/src/app/api/analysis/monthly-balance/route.ts:52 | the decimal text of a number is a non-empty digit string without a leading zero |
| Text.IntToString | app/src/app/api/data-management/export-csv/route.ts:42 | a number's text starts with `-` exactly for a negative number and is digits otherwise |
| Text.NatToStringValue | app/src/app/api/analysis/monthly-balance/route.ts:52 | the digits of a number's text read back as the number |
| Text.PadStart | app/src/app/api/analysis/monthly-balance/route.ts:52 | the padded text has the requested width, ends with the original text and is fill before it |
| Text.Round | app/src/components/dashboard/BudgetProgress.tsx:25 | `Math.round` gives the integer within half of the value, halves going up |
| Text.TrimStart | app/src/app/api/data-management/import-csv/route.ts:155 | removes exactly the leading white space: a suffix of the text, starting with a non-space character |
| Text.TrimEnd | app/src/app/api/data-management/import-csv/route.ts:155 | removes exactly the trailing white space: a prefix of the text, ending with a non-space character |
| Text.TrimUnchanged | app/src/app/api/data-management/import-csv/route.ts:155 | a text that neither starts nor ends with white space is its own trim |
| Text.Split | app/src/app/api/data-management/import-csv/route.ts:128 | `split` gives at least one piece and no piece holds the separator |
| Text.SplitJoin | app/src/app/api/data-management/import-csv/route.ts:128 | splitting undoes joining when no piece holds the separator |
| Text.SplitPiece | app/src/app/api/data-management/import-csv/route.ts:128 | the first piece of a split absorbs any separator-free prefix |
| Text.NotInJoin | app/src/app/api/data-management/export-csv/route.ts:47 | a joined text holds only characters of its pieces and the separator |
| Text.Before | app/src/app/api/data-management/export-csv/route.ts:43 | `split(c)[0]` is the longest prefix without `c`, followed by `c` when shorter than the text |
| Text.SplitPrefixFacts | app/src/app/api/data-management/export-csv/route.ts:43 | the first piece of a split is a prefix of the text, ended by the separator |
| Text.ToLower | app/src/components/money/TransactionList.tsx:101-102 | lower-casing keeps the length and maps each character |
| Text.LexLeTotal | app/src/app/api/settings/categories/route.ts:19-22 | the name order is total |
| Text.LexLeTransitive | app/src/app/api/settings/categories/route.ts:19-22 | the name order is transitive |
| Text.ParseNumber | app/src/app/api/data-management/import-csv/route.ts:179 | `Number` of a blank text is 0 |
| Text.DecimalValue | app/src/app/api/data-management/import-csv/route.ts:179 | in this model, a trimmed text is a number exactly when it is digits with an optional sign |
| Text.NumberRoundTrip | app/src/app/api/data-management/import-csv/route.ts:179 | `Number` reads back the text of every integer |
| Dates.DaysInMonth | app/src/app/api/analysis/comparison/route.ts:22 | months have 28 to 31 days, 31 exactly in the long months, fewer than 30 only in February |
| Dates.MonthOf | app/src/app/api/analysis/comparison/route.ts:21 | a month index outside 0..11 carries into the year: the running month count is kept |
| Dates.MonthOfUnique | app/src/app/api/analysis/comparison/route.ts:21 | the month is determined by its running count |
| Dates.FullYear | app/src/app/api/analysis/comparison/route.ts:21 | the years 0..99 are read as 1900..1999, other years as given |
| Dates.DayZero | app/src/app/api/analysis/comparison/route.ts:22 | day 0 of a month is a calendar day |
| Dates.MonthRangeBounds | app/src/app/api/analysis/comparison/route.ts:21-22 | the queried range runs from the first to the last day of one month |
| Dates.InMonthRange | app/src/app/api/analysis/comparison/route.ts:21-22 | a day is in the queried range exactly when it lies in that month |
| Dates.PreviousMonthWraps | app/src/app/api/analysis/comparison/route.ts:25-26 | the previous-month range is the month before, January wrapping to December of the year before |
| Dates.PreviousYearSameMonth | app/src/app/api/analysis/comparison/route.ts:29-30 | the previous-year range is the same month one year earlier |
| Dates.DaysBeforeMonth | app/src/app/api/analysis/comparison/route.ts:21 | the days before a month are 28 to 31 per earlier month |
| Dates.YearLength | app/src/app/api/analysis/comparison/route.ts:21 | consecutive first days of January are 366 days apart after a leap year and 365 otherwise |
| Dates.DaysBeforeMonthTable | app/src/app/api/analysis/comparison/route.ts:21 | the days before each month are the common-year table, one more after February of a leap year |
| Dates.MonthsAscend | app/src/app/api/analysis/comparison/route.ts:21-22 | a month ends no later than any later month of the year begins |
| Dates.DayWithinYear | app/src/app/api/analysis/comparison/route.ts:21-22 | every day of a year is numbered between that year's first day and the next year's |
| Dates.EpochDayAscends | app/src/app/api/analysis/comparison/route.ts:21-22 | of two different calendar days the earlier has the smaller day number |
| Dates.EpochDayOrder | app/src/app/api/analysis/comparison/route.ts:21-22 | the day number orders calendar days as the calendar does, both ways |
| Dates.RepresentableDays | app/src/app/api/analysis/comparison/route.ts:21-22 | `new Date` holds exactly the calendar days from -271821-04-20 to 275760-09-13 |
| Dates.RepresentableYears | app/src/app/api/analysis/comparison/route.ts:21-22 | every day of the years -271820 to 275759 is valid; no day after 275760 or before -271821 is |
| Dates.RangeLimits | app/src/app/api/analysis/comparison/route.ts:21-22 | a range of calendar days lies between the first and last valid day exactly when `new Date` can hold both bounds |
| Dates.MonthRangeLimits | app/src/app/api/analysis/comparison/route.ts:21-22 | for a queried month, lying between the first and last valid day is the same as having both bounds held by `new Date` |
| Dates.MonthRangeWithinLimits | app/src/app/api/analysis/comparison/route.ts:21-22 | a queried month of the years -271819 to 275759 has valid bounds |
| Dates.MonthRangeBeyond | app/src/app/api/analysis/comparison/route.ts:21-22 | a queried month of a year after 275760 has an invalid bound |
| Dates.DateString | app/src/app/api/data-management/export-csv/route.ts:43 | the ISO day text holds no `T` |
| Dates.IsoDayPart | app/src/app/api/data-management/export-csv/route.ts:43 | splitting the ISO timestamp at `T` gives its day text |
| Dates.ParseDay | app/src/app/api/data-management/import-csv/route.ts:242-248 | a text is read as a day exactly when it has the `YYYY-MM-DD` shape with month 1..12 and day 1..31; the day read is a calendar day |
| Dates.Rollover | app/src/app/api/data-management/import-csv/route.ts:246 | a day past its month's end rolls into the next month; a calendar day stays as it is |
| Dates.DateStringRoundTrip | app/src/app/api/data-management/import-csv/route.ts:187-190 | reading a day text back gives the day, for four-digit years |
| Dates.NextDay | app/src/app/api/data-management/export-csv/route.ts:16-17 | the day after a calendar day is a later calendar day |
| Dates.TimeOfDay | app/src/app/api/data-management/export-csv/route.ts:16-17 | a clock time read from a timestamp is a moment within its day |
| Dates.ParseInstant | app/src/app/api/data-management/export-csv/route.ts:16-17 | `new Date(text)` reads a `YYYY-MM-DD` text as its UTC midnight and a `YYYY-MM-DDTHH:mm:ss.sssZ` text as that moment, `24:00:00.000` as the next midnight; any other text is an invalid date |
| Dates.ClockOf | app/src/components/data-management/CsvExport.tsx:25 | a moment of the day splits into hours, minutes, seconds and milliseconds in range that add back up to it |
| Dates.IsoStringRoundTrip | app/src/components/data-management/CsvExport.tsx:25-33 | the server reads every timestamp the page writes with `toISOString` back as the same moment, for four-digit years |
| Dates.PaddedNumber | app/src/app/api/analysis/monthly-balance/route.ts:52 | a zero-padded number keeps its width and value |
| Sorting.Insert | app/src/app/api/analysis/category-expenses/route.ts:54 | inserting adds exactly one element |
| Sorting.Sort | app/src/app/api/analysis/category-expenses/route.ts:54 | sorting is a permutation |
| Sorting.InsertSorted | app/src/app/api/analysis/category-expenses/route.ts:54 | inserting into a sorted list keeps it sorted, for a total preorder |
| Sorting.SortSorted | app/src/app/api/analysis/category-expenses/route.ts:54 | the sorted list is ordered and a permutation of the input |
| Sorting.InsertTies | app/src/app/api/analysis/category-expenses/route.ts:54 | an inserted element goes ahead of the elements it ties with, whose order is kept |
| Sorting.SortStable | app/src/app/api/analysis/category-expenses/route.ts:54 | the sort is stable: the elements that tie with any value keep their input order |
| Grouping.IndexOfKey | app/src/app/api/dashboard/route.ts:49-57 | finds the position of a key, or reports that no group has it |
| Grouping.GroupsTotalUpdate | app/src/app/api/dashboard/route.ts:56 | growing one group changes the total by the growth |
| Grouping.GroupAllFacts | app/src/app/api/dashboard/route.ts:47-61 | the groups have distinct keys, exactly the records' keys, each with its key's total, adding up to the records' total |
| Grouping.AddStep | app/src/app/api/dashboard/route.ts:48-59 | adding one record keeps the groups a summary of the records |
| Grouping.KeyTotalAbsent | app/src/app/api/dashboard/route.ts:47-61 | a key with no record totals 0 |
| Grouping.GroupAmounts | app/src/app/api/analysis/category-expenses/route.ts:39-44 | the accumulation loop builds the groups |
| Ledger.FindDefaultOther | app/src/app/api/data-management/import-csv/route.ts:80-86 | finds a stored default `その他` of the type, or there is none |
| Ledger.FindNamed | app/src/app/api/data-management/import-csv/route.ts:70-76 | finds a stored category of the type with the name, or there is none |
| Ledger.FindById | app/src/app/api/transactions/route.ts:46-48 | a found category is stored with the id; none found means none is stored |
| Ledger.FoundById | app/src/app/api/transactions/route.ts:46-57 | the lookup succeeds exactly when a category with the id is stored |
| Ledger.OfTypeMembers | app/src/app/api/dashboard/route.ts:26-31 | the type filter keeps exactly the records of that type |
| Ledger.SumAppend | app/src/app/api/dashboard/route.ts:26-33 | the sum of amounts distributes over concatenation |
| Ledger.TypeTotalAppend | app/src/app/api/analysis/comparison/route.ts:56-81 | a new record changes its type's total by its amount |
| Ledger.TypeTotalsPartition | app/src/app/api/dashboard/route.ts:26-33 | income and expense totals add up to the sum of all amounts |
| Ledger.InDateRangeMembers | app/src/app/api/dashboard/route.ts:13-23 | the date query keeps exactly the records whose day is in the range |
| Ledger.NewestFirstIsPreorder | app/src/app/api/transactions/route.ts:7-9 | newest-first is a total preorder |
| Ledger.ByDateDesc | app/src/app/api/transactions/route.ts:4-22 | the listing holds the same records, newest first |
| Ledger.Store.constructor | app/src/app/api/transactions/route.ts:4-22 | a store holds the given categories, transactions and counter |
| Ledger.Store.FreshId | app/src/app/api/transactions/route.ts:59-66 | hands out the next unused id |
| Ledger.Store.CreateCategory | app/src/app/api/settings/categories/route.ts:79-88 | appends one category with a fresh id and changes nothing else |
| Ledger.Store.UpdateCategory | app/src/app/api/data-management/restore/route.ts:79-88 | overwrites one category's fields; its id stays |
| Ledger.Store.CreateTransaction | app/src/app/api/transactions/route.ts:59-66 | appends one transaction exactly when its category is stored, otherwise changes nothing |
| Ledger.Store.DeleteAllTransactions | app/src/app/api/data-management/restore/route.ts:107 | empties the transaction table |
| Ledger.Store.DeleteNonDefaultCategories | app/src/app/api/data-management/restore/route.ts:52-56 | fails, changing nothing, exactly when a stored transaction uses a non-default category; otherwise keeps exactly the default categories, in order |
| Ledger.Defaults | app/src/app/api/data-management/restore/route.ts:52-56 | keeps exactly the default categories |
| Ledger.DefaultsKeepIds | app/src/app/api/data-management/restore/route.ts:52-56 | deleting categories keeps ids unique |
| CsvExport.DoubleQuotes | app/src/app/api/data-management/export-csv/route.ts:73 | every quote is doubled and every other character is kept |
| CsvExport.FormatField | app/src/app/api/data-management/export-csv/route.ts:70-76 | a field is written as it is or wrapped in quotes |
| CsvExport.FormatFieldPlain | app/src/app/api/data-management/export-csv/route.ts:72 | a field without comma, quote or line break is written as it is |
| CsvExport.FormatFieldQuoted | app/src/app/api/data-management/export-csv/route.ts:72-74 | any other field gets two outer quotes and one extra quote per quote |
| CsvExport.RowFields | app/src/app/api/data-management/export-csv/route.ts:40-46 | a row has the five header columns |
| CsvExport.ExportRows | app/src/app/api/data-management/export-csv/route.ts:39-48 | one line per selected transaction, in order, with its category's name |
| CsvExport.SelectRows | app/src/app/api/data-management/export-csv/route.ts:12-31 | without both bounds every stored record is selected, each once; with both, exactly the records dated between `new Date(start)` and `new Date(end)`, each as often as stored; the query fails exactly when a bound given is not a date; newest first |
| CsvExport.BetweenMembers | app/src/app/api/data-management/export-csv/route.ts:13-20 | the date filter keeps exactly the records between the bounds, each as often as stored, and drops the others |
| CsvExport.PeriodInDays | app/src/app/api/data-management/export-csv/route.ts:13-20 | bounds at midnight select whole days, both ends included; a start after midnight leaves its own day out |
| CsvExport.DaySelection | app/src/app/api/data-management/export-csv/route.ts:13-31 | bounds read as two midnights select exactly the records dated from the first day to the last |
| CsvExport.MonthExport | app/src/components/data-management/CsvExport.tsx:20-25 | the "this month" export selects exactly the records dated in the current month |
| CsvExport.SelectedResolve | app/src/app/api/data-management/export-csv/route.ts:23-31 | selected records still refer to stored categories |
| CsvExport.ExportCsv | app/src/app/api/data-management/export-csv/route.ts:4-48 | the route fails exactly when the query fails, and otherwise returns the file of the selected rows |
| CsvExport.WriteCsv | app/src/app/api/data-management/export-csv/route.ts:34-48 | the written text is the header line followed by one line per record, each ending in a newline |
| CsvExport.WriteLines | app/src/app/api/data-management/export-csv/route.ts:37-48 | the loop that appends `line + '\n'` to the header line yields every line, in order, each followed by a newline |
| CsvExport.ExportStartsWithHeader | app/src/app/api/data-management/export-csv/route.ts:34-37 | the file opens with the header line |
| CsvExport.ExportLines | app/src/app/api/data-management/export-csv/route.ts:34-48 | without line breaks in fields, the file splits into the header, the rows in order and an empty tail |
| CsvImport.Scan | app/src/app/api/data-management/import-csv/route.ts:207-239 | the scanner only adds fields |
| CsvImport.ParseLine | app/src/app/api/data-management/import-csv/route.ts:207-239 | a line gives at least one field |
| CsvImport.ParseCsvLine | app/src/app/api/data-management/import-csv/route.ts:207-239 | the character loop computes the scanner's fields |
| CsvImport.FieldCount | app/src/app/api/data-management/import-csv/route.ts:225-232 | a line has one field more than commas outside quotes |
| CsvImport.ParseLineWithoutQuotes | app/src/app/api/data-management/import-csv/route.ts:207-239 | a line without quotes is split at commas |
| CsvImport.MissingHeaders | app/src/app/api/data-management/import-csv/route.ts:142-151 | each error names a required header the header line lacks; none exactly when every required header is present |
| CsvImport.MissingPositionsFacts | app/src/app/api/data-management/import-csv/route.ts:142-147 | the positions of the absent names in the required list, ascending, and every absent name's position among them |
| CsvImport.MissingHeadersInOrder | app/src/app/api/data-management/import-csv/route.ts:142-147 | one error per absent required name, at its position's turn: the errors follow the order of the required list |
| CsvImport.MissingHeadersDistinct | app/src/app/api/data-management/import-csv/route.ts:142-147 | with distinct required names, no header is reported twice |
| CsvImport.LastIndex | app/src/app/api/data-management/import-csv/route.ts:169-171 | a repeated column name reads the last such column |
| CsvImport.ReadLine | app/src/app/api/data-management/import-csv/route.ts:154-201 | a blank line is skipped, a rejected line names its number, an accepted record has a valid type and a calendar date |
| CsvImport.Outcomes | app/src/app/api/data-management/import-csv/route.ts:154-201 | one outcome per data line |
| CsvImport.ParseCsv | app/src/app/api/data-management/import-csv/route.ts:127-204 | the parse computes its specification |
| CsvImport.CheckHeaders | app/src/app/api/data-management/import-csv/route.ts:139-151 | the header loop lists the missing required headers |
| CsvImport.ReadRows | app/src/app/api/data-management/import-csv/route.ts:154-201 | the row loop collects the accepted records and the errors in line order |
| CsvImport.ReadDataLine | app/src/app/api/data-management/import-csv/route.ts:155-199 | the loop body checks a line in the route's order |
| CsvImport.EmptyHeaderLine | app/src/app/api/data-management/import-csv/route.ts:133-137 | an empty first line gives no record and one error |
| CsvImport.MissingHeaderRejectsAll | app/src/app/api/data-management/import-csv/route.ts:139-151 | a missing required header gives no record and names that header |
| CsvImport.ParsedRecordsValid | app/src/app/api/data-management/import-csv/route.ts:174-190 | every parsed record has type income or expense and a calendar date |
| CsvImport.OneResultPerLine | app/src/app/api/data-management/import-csv/route.ts:154-201 | every non-blank data line gives exactly one record or one error |
| CsvImport.ErrorLineNumbers | app/src/app/api/data-management/import-csv/route.ts:160-190 | every row error names a data line, from 2 to the line count |
| CsvImport.ResolveCategory | app/src/app/api/data-management/import-csv/route.ts:68-93 | a resolved category is stored and of the record's type |
| CsvImport.FindNamedFirst | app/src/app/api/data-management/import-csv/route.ts:70-75 | `find` returns the first category with the name |
| CsvImport.ResolveByName | app/src/app/api/data-management/import-csv/route.ts:68-76 | a record whose name matches is filed under the first match |
| CsvImport.Created | app/src/app/api/data-management/import-csv/route.ts:65-109 | at most one transaction per record |
| CsvImport.CreatedFacts | app/src/app/api/data-management/import-csv/route.ts:95-103 | every created transaction refers to a stored category and has a fresh id |
| CsvImport.ImportedPlusFailed | app/src/app/api/data-management/import-csv/route.ts:111-116 | imported plus failed is the number of records |
| CsvImport.DefaultsCatchAll | app/src/app/api/data-management/import-csv/route.ts:78-92 | with both defaults stored, no record fails |
| CsvImport.ImportCsv | app/src/app/api/data-management/import-csv/route.ts:13-124 | each outcome holds exactly in its case: no file, parse errors (reported), no records, and otherwise an import; only the import changes the store, which gets the created transactions after the old ones unless in replace mode |
| CsvImport.ImportRecord | app/src/app/api/data-management/import-csv/route.ts:66-107 | a record is created exactly when its category resolves |
| CsvImport.CreateAll | app/src/app/api/data-management/import-csv/route.ts:65-109 | the loop appends the created transactions and reports the failed records |
| CsvRoundTrip.FieldRoundTrip | app/src/app/api/data-management/import-csv/route.ts:207-239 | the line parser undoes the field formatting for every text |
| CsvRoundTrip.ScanQuoted | app/src/app/api/data-management/import-csv/route.ts:216-224 | a quoted field with doubled quotes reads back as the field |
| CsvRoundTrip.RecordOf | app/src/app/api/data-management/export-csv/route.ts:40-46 | an exported transaction is read back with its type, amount, day, memo and category name |
| CsvRoundTrip.Exported | app/src/app/api/data-management/export-csv/route.ts:39-48 | one record per exported transaction, in order |
| CsvRoundTrip.RowRoundTrip | app/src/app/api/data-management/import-csv/route.ts:154-201 | an exported row is one line and reads back as the transaction's record |
| CsvRoundTrip.RowLine | app/src/app/api/data-management/export-csv/route.ts:40-47 | an exported row is a trimmed line that scans back to its five columns |
| CsvRoundTrip.HeaderColumns | app/src/app/api/data-management/export-csv/route.ts:34-37 | the exported header holds every required column |
| CsvRoundTrip.ColumnPositions | app/src/app/api/data-management/import-csv/route.ts:169-171 | each exported column is read from its own position |
| CsvRoundTrip.FileOutcomes | app/src/app/api/data-management/import-csv/route.ts:154-201 | every data line of an exported file is accepted and the final empty line is skipped |
| CsvLineBreaks.NewlineMemoBreaksImport | app/src/app/api/data-management/import-csv/route.ts:127-128 | a transaction whose memo is `a` line break `b` exports to a file whose import reports that line 3 has one column instead of five |
| CsvRoundTrip.ExportImportRoundTrip | app/src/app/api/data-management/import-csv/route.ts:127-204 | importing an exported file gives, without error, one record per transaction in the exported order |
| Restore.PreCheck | app/src/app/api/data-management/restore/route.ts:20-45 | the restore proceeds exactly for a backup with a version and a non-empty transaction list; a JSON `null` fails as the route's 500 and nothing else does |
| Restore.FindDefault | app/src/app/api/data-management/restore/route.ts:61-67 | finds a stored default matching name and type, or there is none |
| Restore.IndexOf | app/src/app/api/data-management/restore/route.ts:77-80 | finds the stored category with the id, or there is none |
| Restore.Overwrite | app/src/app/api/data-management/restore/route.ts:82-88 | an update keeps the category's id |
| Restore.NewColor | app/src/app/api/data-management/restore/route.ts:92 | a created category's colour is the backup's, or the fallback colour |
| Restore.UpsertSpec | app/src/app/api/data-management/restore/route.ts:77-98 | an upsert only succeeds for a backup category with an id |
| Restore.ReconcileAllKeepsIds | app/src/app/api/data-management/restore/route.ts:59-103 | no stored category disappears during reconciliation |
| Restore.ReconcileAllLinks | app/src/app/api/data-management/restore/route.ts:59-103 | every id-map entry leads to a stored category |
| Restore.CategoryPhaseLinks | app/src/app/api/data-management/restore/route.ts:52-103 | after the category phase every map entry leads to a stored category |
| Restore.DefaultsSurvive | app/src/app/api/data-management/restore/route.ts:52-103 | default categories are never deleted |
| Restore.NoCategoryList | app/src/app/api/data-management/restore/route.ts:52 | without a category list, no category changes and the map is empty |
| Restore.DefaultMatched | app/src/app/api/data-management/restore/route.ts:61-73 | an incoming default matching a stored one maps onto it and changes nothing |
| Restore.CreatedFromBackup | app/src/app/api/data-management/restore/route.ts:77-98 | an unknown id is created with a fresh id and mapped to it |
| Restore.UpdatedFromBackup | app/src/app/api/data-management/restore/route.ts:77-98 | a known id is overwritten in place and mapped to itself |
| Restore.UpsertFailureSkipped | app/src/app/api/data-management/restore/route.ts:99-102 | a failed upsert changes nothing |
| Restore.Lookup | app/src/app/api/data-management/restore/route.ts:124 | a mapped id is replaced; an unmapped one is kept |
| Restore.DefaultOtherId | app/src/app/api/data-management/restore/route.ts:145-157 | the id of a stored default `その他` of the type, or there is none; a record without a type leaves the type unfiltered |
| Restore.RestoreCategoryId | app/src/app/api/data-management/restore/route.ts:120-158 | a backup's own category id wins, mapped; otherwise the type's default; nothing when neither exists |
| Restore.RestoredAll | app/src/app/api/data-management/restore/route.ts:112-177 | at most one transaction per backup record |
| Restore.RestoredFacts | app/src/app/api/data-management/restore/route.ts:112-182 | restored transactions refer to stored categories, have calendar days and fresh ids, and their count is the number of restorable records |
| Restore.DefaultsRestoreAll | app/src/app/api/data-management/restore/route.ts:145-157 | with both defaults stored, every record with a type, an amount and a date and without its own category id is restored |
| Restore.IncompleteSkipped | app/src/app/api/data-management/restore/route.ts:159-174 | a record without a type or a numeric amount makes the creation throw and is skipped, the loop going on |
| Restore.RestoreBackup | app/src/app/api/data-management/restore/route.ts:4-196 | a failed pre-check changes nothing; a backup with categories fails with nothing changed while a stored transaction uses a non-default category; otherwise categories are reconciled and the transactions replaced by the restored ones, whose count is returned |
| Restore.ReconcileCategories | app/src/app/api/data-management/restore/route.ts:59-103 | the category loop computes the reconciliation |
| Restore.ReconcileCategory | app/src/app/api/data-management/restore/route.ts:60-102 | one turn of the category loop |
| Restore.Upsert | app/src/app/api/data-management/restore/route.ts:77-102 | the upsert either fails and changes nothing, or applies its specification |
| Restore.RestoreTransactions | app/src/app/api/data-management/restore/route.ts:112-177 | the transaction loop stores the restored transactions and counts them |
| Restore.RestoreTransaction | app/src/app/api/data-management/restore/route.ts:113-176 | a record is created exactly when it is restorable |
| CategorySettings.DefaultsThenNameIsPreorder | app/src/app/api/settings/categories/route.ts:19-22 | defaults-then-name is a total preorder |
| CategorySettings.OfKind | app/src/app/api/settings/categories/route.ts:17-18 | the type filter keeps exactly the categories of the type, each as often as it occurs, and nothing else |
| CategorySettings.ListCategories | app/src/app/api/settings/categories/route.ts:5-33 | a listing exists exactly for income or expense and holds exactly that type's categories, defaults first then by name |
| CategorySettings.ListingOrder | app/src/app/api/settings/categories/route.ts:17-23 | no user category precedes a default, and names ascend within each group |
| CategorySettings.Rejection | app/src/app/api/settings/categories/route.ts:42-76 | a body is accepted exactly when name, type and colour are present and the trimmed name is new for the type |
| CategorySettings.NewCategory | app/src/app/api/settings/categories/route.ts:79-88 | a posted category is never a default |
| CategorySettings.AcceptedKeepsNamesUnique | app/src/app/api/settings/categories/route.ts:64-88 | an accepted post keeps names unique within a type |
| CategorySettings.PostCategory | app/src/app/api/settings/categories/route.ts:36-96 | a rejection changes nothing; an acceptance appends exactly one category; names stay unique |
| TransactionsRoute.AmountValue | app/src/app/api/transactions/route.ts:37 | a numeric amount is taken as it is |
| TransactionsRoute.Rejection | app/src/app/api/transactions/route.ts:29-57 | a missing field gives the fields error; a body is accepted exactly when fields are present, the amount is a number, the category exists and `new Date(body.date)` is a valid date |
| TransactionsRoute.Recorded | app/src/app/api/transactions/route.ts:59-66 | the stored transaction carries the body's values, the memo defaulting to empty; a day text is stored as that day, and the date is stored exactly when it is a midnight |
| TransactionsRoute.PostTransaction | app/src/app/api/transactions/route.ts:24-80 | a rejection changes nothing; an acceptance appends the recorded transaction |
| TransactionsRoute.TimestampAccepted | app/src/app/api/transactions/route.ts:59-66 | a date sent as a `toISOString()` midnight is accepted and stored as its day |
| TransactionsRoute.NoTypeMatchCheck | app/src/app/api/transactions/route.ts:46-57 | an income filed under an expense category is accepted |
| TransactionsRoute.ZeroTextPasses | app/src/app/api/transactions/route.ts:29-43 | a numeric 0 is rejected as missing but the text "0" passes and is stored as 0 |
| Dashboard.ThisMonth | app/src/app/api/dashboard/route.ts:8-10 | the month range runs from the first to the last day of today's month |
| Dashboard.IdItems | app/src/app/api/dashboard/route.ts:47-61 | one (category id, amount) pair per expense, in order |
| Dashboard.Joined | app/src/app/api/dashboard/route.ts:47-61 | each group gets its category's name and colour |
| Dashboard.JoinedTotal | app/src/app/api/dashboard/route.ts:47-61 | joining keeps the total |
| Dashboard.IdItemsTotal | app/src/app/api/dashboard/route.ts:47-61 | the pairs add up to the expenses' sum |
| Dashboard.SpendingFacts | app/src/app/api/dashboard/route.ts:47-61 | one entry per category among the expenses, with distinct ids, each with its category's total, name and colour, adding up to the month's expense |
| Dashboard.SpendingIds | app/src/app/api/dashboard/route.ts:47-61 | the entries' ids are exactly the expenses' category ids |
| Dashboard.SpentOn | app/src/app/api/dashboard/route.ts:64-80 | a budget's spending is the first entry with its name, or 0 |
| Dashboard.Budgets | app/src/app/api/dashboard/route.ts:64-80 | one budget per plan line, in plan order, with its spending |
| Dashboard.AlertFor | app/src/app/api/dashboard/route.ts:86-98 | a warning exactly when over budget, with the excess; an info alert exactly when above 90% and not over |
| Dashboard.BudgetAlertsFacts | app/src/app/api/dashboard/route.ts:86-98 | at most one alert per budget, each about one of the budgets |
| Dashboard.DangerLast | app/src/app/api/dashboard/route.ts:101-106 | a balance alert exactly when expense exceeds income; it is the last and only one |
| Dashboard.CollectAlerts | app/src/app/api/dashboard/route.ts:86-98 | the budget loop computes the budget alerts |
| Dashboard.AllAlerts | app/src/app/api/dashboard/route.ts:86-106 | the loop and the balance check compute all alerts |
| Dashboard.RecentFacts | app/src/app/api/dashboard/route.ts:36-44 | at most five records, newest first, from the store, none left out newer than any shown |
| Dashboard.GetDashboard | app/src/app/api/dashboard/route.ts:8-119 | the summary is the month's totals and per-category spending; budgets, alerts and recent records follow their specifications |
| Dashboard.CategorySpending | app/src/app/api/dashboard/route.ts:47-61 | the reduce computes the per-category spending |
| Dashboard.ExpensesResolve | app/src/app/api/dashboard/route.ts:13-23 | month expenses still refer to stored categories |
| Dashboard.SummaryAgrees | app/src/app/api/dashboard/route.ts:26-61 | the category entries add up to the month's expense, and the totals agree with the comparison route's |
| Comparison.ReadMonth | app/src/app/api/analysis/comparison/route.ts:10-18 | a missing date is reported; a month is read from the first two `-` pieces |
| Comparison.ReadMonthDigits | app/src/app/api/analysis/comparison/route.ts:18 | a `year-month` text of digits reads as that year and month |
| Comparison.DigitsOnly | app/src/app/api/analysis/comparison/route.ts:18 | a digit string reads as its value |
| Comparison.MonthlyData | app/src/app/api/analysis/comparison/route.ts:56-81 | the balance is income minus expense |
| Comparison.InDateRangeAppend | app/src/app/api/analysis/comparison/route.ts:58-66 | the date filter distributes over concatenation |
| Comparison.MonthlyDataFilters | app/src/app/api/analysis/comparison/route.ts:56-81 | the figures are the type totals of the records in the range |
| Comparison.MonthlyDataPartition | app/src/app/api/analysis/comparison/route.ts:56-81 | income and expense add up to the period's total |
| Comparison.Compare | app/src/app/api/analysis/comparison/route.ts:10-50 | a missing date is reported exactly when it is missing; the answer is a failure exactly when the date is unreadable or one of the three queried ranges leaves the range of `Date` |
| Comparison.ComparableMonths | app/src/app/api/analysis/comparison/route.ts:21-30 | every month of the years -271818 to 275759 has its three ranges within the range of `Date` |
| Comparison.FarMonthRejected | app/src/app/api/analysis/comparison/route.ts:18-22 | a month of a year after 275760 is answered as a failure |
| Comparison.ComparedMonths | app/src/app/api/analysis/comparison/route.ts:21-45 | the three periods are the month, the month before and the same month a year earlier |
| MonthlyBalance.TargetMonth | app/src/app/api/analysis/monthly-balance/route.ts:27 | the target is a month 1..12 |
| MonthlyBalance.Entry | app/src/app/api/analysis/monthly-balance/route.ts:41-53 | an entry's balance is income minus expense |
| MonthlyBalance.MonthlyBalances | app/src/app/api/analysis/monthly-balance/route.ts:4-92 | a missing date is reported exactly when it is missing; the answer is a failure exactly when the date is unreadable or one of the seven queried ranges leaves the range of `Date`; otherwise six entries oldest first and the month's figures |
| MonthlyBalance.Balances | app/src/app/api/analysis/monthly-balance/route.ts:18-86 | the loop, the reverse and the current month give the specified data |
| MonthlyBalance.NewestFirst | app/src/app/api/analysis/monthly-balance/route.ts:26-57 | the loop pushes six entries, newest first |
| MonthlyBalance.MonthFigures | app/src/app/api/analysis/monthly-balance/route.ts:27-53 | one turn computes the entry for the month `i` back |
| MonthlyBalance.Reverse | app/src/app/api/analysis/monthly-balance/route.ts:85 | reversal mirrors the positions |
| MonthlyBalance.LastIsSelected | app/src/app/api/analysis/monthly-balance/route.ts:60-77 | the last entry is the selected month, with the current month's figures |
| MonthlyBalance.TargetRangeLimits | app/src/app/api/analysis/monthly-balance/route.ts:27-28 | for the range of a month back, lying between the first and last valid day is the same as having both bounds held by `new Date` |
| MonthlyBalance.TargetRangeWithinLimits | app/src/app/api/analysis/monthly-balance/route.ts:27-28 | for the years -271818 to 275759, the range of each month back is within the range of `Date` |
| MonthlyBalance.BalancesQueryableMonths | app/src/app/api/analysis/monthly-balance/route.ts:21-28 | every month of the years -271818 to 275759 gets its balances |
| MonthlyBalance.FarBalancesRejected | app/src/app/api/analysis/monthly-balance/route.ts:18-22 | a month of a year after 275760 is answered as a failure |
| MonthlyBalance.LabelRoundTrip | app/src/app/api/analysis/monthly-balance/route.ts:52 | a label reads back, as a date parameter, as its month |
| CategoryExpenses.KeyOf | app/src/app/api/analysis/category-expenses/route.ts:39-44 | a record with a stored category is keyed by its name |
| CategoryExpenses.ByCategory | app/src/app/api/analysis/category-expenses/route.ts:39-44 | one keyed amount per record, in order |
| CategoryExpenses.Percentage | app/src/app/api/analysis/category-expenses/route.ts:47-51 | 0 for a non-positive total; 100 for the whole total; between 0 and 100 for a part |
| CategoryExpenses.Entries | app/src/app/api/analysis/category-expenses/route.ts:47-51 | one entry per group with its share |
| CategoryExpenses.LargestFirstIsPreorder | app/src/app/api/analysis/category-expenses/route.ts:54 | largest-first is a total preorder |
| CategoryExpenses.CategoryExpensesReport | app/src/app/api/analysis/category-expenses/route.ts:4-62 | a missing date is reported exactly when it is missing; the answer is a failure exactly when the date is unreadable or the month's range leaves the range of `Date`; otherwise the corrected report of the month's expenses |
| CategoryExpenses.EntriesFacts | app/src/app/api/analysis/category-expenses/route.ts:47-51 | entries keep the total and distinct keys |
| CategoryExpenses.SortKeeps | app/src/app/api/analysis/category-expenses/route.ts:54 | sorting keeps the total and distinct keys |
| CategoryExpenses.GroupedEntries | app/src/app/api/analysis/category-expenses/route.ts:39-51 | the entries describe the records |
| CategoryExpenses.SortedEntries | app/src/app/api/analysis/category-expenses/route.ts:54 | sorting keeps the description and orders amounts largest first |
| CategoryExpenses.ReportFacts | app/src/app/api/analysis/category-expenses/route.ts:36-54 | the report describes the records, largest amount first |
| CategoryExpenses.CategoryReportFacts | app/src/app/api/analysis/category-expenses/route.ts:36-54 | one entry per category name, each its category's total, adding up to the month's total, largest first, shares 0 for a non-positive total |
| CategoryExpenses.ItemsTotalSum | app/src/app/api/analysis/category-expenses/route.ts:36 | the keyed amounts add up to the expenses' sum |
| CategoryExpenses.AsWrittenItems | app/src/app/api/analysis/category-expenses/route.ts:39-44 | as written, every record is keyed `undefined` |
| CategoryExpenses.AsWrittenGroups | app/src/app/api/analysis/category-expenses/route.ts:39-44 | as written, all expenses fall into one group |
| CategoryExpenses.AsWrittenOneEntry | app/src/app/api/analysis/category-expenses/route.ts:39-54 | as written, a month with expenses reports one entry holding the whole total |
| CategoryExpenses.AsWrittenMergesCategories | app/src/app/api/analysis/category-expenses/route.ts:39-54 | two expenses in differently named categories: one entry as written, two corrected |
| BudgetProgress.CalculatePercentage | app/src/components/dashboard/BudgetProgress.tsx:24-26 | the percentage is at most 100; it is a number unless the budget is 0 and nothing positive is spent; NaN exactly for 0 of 0 |
| BudgetProgress.ProgressColor | app/src/components/dashboard/BudgetProgress.tsx:29-33 | red exactly from 100, yellow exactly from 75 below 100 |
| BudgetProgress.PercentTone | app/src/components/dashboard/BudgetProgress.tsx:64 | the percentage text is red exactly when the bar is red |
| BudgetProgress.Remaining | app/src/components/dashboard/BudgetProgress.tsx:68 | what is left is never negative, 0 exactly when the budget is spent, and otherwise completes the spending to the budget |
| BudgetProgress.PercentageNearRatio | app/src/components/dashboard/BudgetProgress.tsx:24-26 | against a positive budget the percentage is the nearest whole number, capped from 99.5% |
| BudgetProgress.ColorBands | app/src/components/dashboard/BudgetProgress.tsx:24-45 | against a positive budget: red exactly from 99.5% spent, yellow from 74.5%, green below |
| BudgetProgress.ZeroBudgetBar | app/src/components/dashboard/BudgetProgress.tsx:24-45 | a zero budget is red exactly when something is spent, never yellow |
| BudgetProgress.ExhaustedIsRed | app/src/components/dashboard/BudgetProgress.tsx:44-68 | a spent positive budget is red |
| BudgetProgress.RedWithMoneyLeft | app/src/components/dashboard/BudgetProgress.tsx:44-68 | the converse fails: 995 spent of 1000 is red with 5 left |
| BudgetProgress.AlertedIsNotGreen | app/src/components/dashboard/BudgetProgress.tsx:24-45 | a budget with a dashboard alert never shows a green bar |
| ComparisonReport.ChartData | app/src/components/analysis/ComparisonReport.tsx:54-73 | three rows, income, expense and balance, each with the three periods' figures |
| ComparisonReport.ChartBalances | app/src/components/analysis/ComparisonReport.tsx:54-73 | the balance row is income minus expense in every period |
| ComparisonReport.ChangePercentage | app/src/components/analysis/ComparisonReport.tsx:96-99 | from 0 the change is 0 when the figure stays 0 and 100 when it moves; otherwise it is within half a percent of the exact change |
| ComparisonReport.FromZeroReadsAsRise | app/src/components/analysis/ComparisonReport.tsx:96-110 | from 0, even a fall into deficit shows as `+100%` in red |
| ComparisonReport.ChangeDirection | app/src/components/analysis/ComparisonReport.tsx:96-99 | no change shows 0; the sign follows the direction of change, reversed against a negative figure |
| ComparisonReport.RenderedSign | app/src/components/analysis/ComparisonReport.tsx:101-111 | the text has `+` exactly for a rise and `-` for a fall, ends in `%`, its tone agrees, and it reads back as the percentage |
| TransactionList.Listed | app/src/components/money/TransactionList.tsx:14-23 | a listed record has its category exactly when one is stored with its id |
| TransactionList.ListedAll | app/src/components/money/TransactionList.tsx:14-23 | one listed record per transaction, in order |
| TransactionList.Filtered | app/src/components/money/TransactionList.tsx:100-106 | filtering never adds records |
| TransactionList.FilteredMembers | app/src/components/money/TransactionList.tsx:100-106 | a record is shown exactly when it is listed and passes search, type and category |
| TransactionList.FilteredAppend | app/src/components/money/TransactionList.tsx:100-106 | filtering keeps the list order |
| TransactionList.FilteredKeepsShown | app/src/components/money/TransactionList.tsx:100-106 | a list of shown records is kept whole |
| TransactionList.EmptySearch | app/src/components/money/TransactionList.tsx:101-102 | the empty search matches exactly the records with a memo or a category |
| TransactionList.UnfilteredShowsAll | app/src/components/money/TransactionList.tsx:100-106 | with no search and no selection every stored record is shown, in order |
| TransactionList.CategorySelection | app/src/components/money/TransactionList.tsx:104 | selecting a category shows exactly its records that pass search and type |
| TransactionList.GetEditData | app/src/components/money/TransactionList.tsx:109-118 | the form gets the record's fields, its ISO day, which reads back as its date, and its memo or the empty text |

## Left out

- HTTP, JSON and multipart handling, the Prisma client and its connection, and the response bodies' wording are not modelled. Each route returns a datatype of its outcomes instead.
- Restore.RestoreBackup: the only store failure modelled is the refused deletion of the non-default categories, which comes before any change, so the rollback is trivial there. Other database failures inside the transaction, and the rollback they cause, are not modelled.
- Ledger.Store.DeleteNonDefaultCategories: the schema is not part of this model. The relation from a transaction to its category is assumed to restrict deletion, the default for a required relation and what the category delete route at app/src/app/api/settings/categories/[id]/route.ts:112-122 checks by hand.
- Concurrency between requests is not modelled.
- Floating point is not modelled. Amounts are integers, and percentages are exact reals rounded with `Math.round` where the source rounds.
- The alert messages' text, including the excess rounded to thousands, is not modelled. The alert datatypes carry the amounts.
- Currency and date display (`toLocaleString`, `toLocaleDateString`) is not modelled.
- The clock (`new Date()`) is a parameter, and time zones are not modelled. A stored date is a calendar day at UTC midnight.
- CsvExport.MonthExport: the page's bounds are local midnights, taken here as UTC midnights. East of UTC the real bounds fall on the previous UTC day, so the export leaves out the month's last day; west of UTC they fall after midnight, so it leaves out the month's first day (CsvExport.PeriodInDays shows the start case).
- TransactionsRoute.Rejection: `new Date(body.date)` is read with Dates.ParseInstant, so only the two ISO forms are valid; other texts V8 accepts are rejected as CreateFailed here.
- TransactionsRoute.PostTransaction: a timestamp with a time of day other than midnight is stored as its UTC day. The time of day is dropped, because stored dates are days throughout the model.
- Restore.RestoreBackup: a backup amount is an integer or `None`. `None` stands both for a missing amount and for one that is not a number, which the store refuses alike; fractional amounts fall under floating point above.
- Dates.ParseInstant: only the two ISO forms the page sends are read. Other texts V8's fallback parser accepts (other separators, fractions of other lengths, offsets other than `Z`, local times) read as invalid here.
- Identifiers are natural numbers handed out by a counter. The source's generated string ids are not modelled, so neither is an id that happens to be falsy.
- Names are ordered by code points. The database collation is not modelled.
- The `createdAt`, `updatedAt` and `icon` columns are not modelled.
- The schema is not part of this model. Its relation from a transaction to its category is assumed as the precondition `ReferencesResolve` wherever a route joins categories: the export, the dashboard and the list. The store's transaction creation fails for an unknown category.
- The default categories the seed script creates are not assumed. The properties that need them take them as a precondition (`DefaultsCatchAll`, `DefaultsRestoreAll`).
- React rendering, state hooks and fetch calls of the components are not modelled. Only the computations the three named components make are modelled.
- The backup download, the category list route and the per-id routes are not part of this model.
- CsvRoundTrip.ExportImportRoundTrip: the round trip requires every exported transaction to be `Portable`. A memo with a line break is quoted by the export but cut into lines by the import; CsvLineBreaks.NewlineMemoBreaksImport exhibits this. An unquoted memo that ends in white space is trimmed. Category names with a comma, quote or line break are written unquoted. Years outside 0..9999 are written with six digits.
- CsvExport.WriteCsv: the rows are formatted first and then appended by the loop, where the source formats each row inside the loop. The text written is the same.
- TransactionList.GetEditData: requires a calendar date, as the stored dates always are.
- BudgetProgress.CalculatePercentage: `NaN` and `-Infinity` are values of a datatype, not floating-point numbers.
- Dates.ParseDay: the V8 reading of `YYYY-MM-DD` is modelled. Other engines' handling of impossible days is not.
- Text.ToLower: only ASCII letters are lower-cased.
- Dates.EpochDay: the day number is an exact integer and the range test is on whole days at UTC. The engine computes it in floating point from local time, so near the ends of the range the time zone moves the limit by up to a day.
- Text.ParseNumber: only integral decimal texts are read. Fractions, exponents, hexadecimal, binary (`0b`) and octal (`0o`) texts, and `Infinity`/`-Infinity`, read as NaN; so an amount of `"Infinity"` is rejected here, where `Number` would pass it on.

## Findings

| source | as written | input that shows it | evidently intended | confidence | as-written member | corrected member |
|---|---|---|---|---|---|---|
| app/src/app/api/analysis/category-expenses/route.ts:39-44 | groups the month's expenses by `expense.category`, which the query does not include, so every key is `undefined` | two expenses in the month, filed under categories named differently | one entry per category name, each holding that category's total | not executed (medium: the schema is not part of this model) | CategoryExpenses.AsWrittenMergesCategories | CategoryExpenses.CategoryReportFacts |
