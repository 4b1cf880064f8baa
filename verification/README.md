# buyerstats: a Dafny model of the ingest and summary pipeline

buyerstats keeps a running per-buyer ticket ledger in a spreadsheet and runs
in two steps.

The ingest run (`scripts/fetchAndPush.js`):
- turns a range key ("Today", "Yesterday", "This month", "Last month", "This year") into a span of calendar days;
- formats both ends of the span as `YYYY/MM/DD` for the report's date filter;
- downloads the report's CSV export;
- drops the preamble above the header line that starts with `"Request Date and Time"`;
- sums the "Order QTY" field per "User Name", keeping buyers in first-seen order;
- appends one labelled block of rows to the RawData ledger sheet.

The rebuild (`scripts/buildSummary.js`):
- reads the whole ledger back;
- scans it into a label → (buyer → total) table;
- drops every label whose totals are all non-positive;
- collects the buyers of the kept labels in first-seen order;
- writes a buyer × label matrix over the Summary sheet, filling missing cells with 0.

The model has one module per concern:

- `Calendar`: proleptic Gregorian dates, and the day carrying the JavaScript `Date` constructor does for an out-of-range month index or day (`JsDate`).
- `RangeResolver`: `computeRange` and `fmt`.
- `JsNumber`: `parseInt(s, 10) || 0`, and the decimal text a whole number is read back as.
- `CsvAggregator`: `aggregateByBuyer`, meaning the preamble skip on the raw text and the group-sum over parsed records.
- `RawLedgerWriter`: the block of rows `pushRawData` appends.
- `SummaryBuilder`: the pure part of `buildSummary`, meaning the scan, the filter, the buyer list and the matrix.
- `LedgerRoundTrip`: how the two scripts meet. A block written by an ingest run reads back, in the rebuild, as exactly the totals that were written, provided no buyer in it is named "Buyer". It also holds a worked example in which an all-zero block is dropped.
- `Seqs`, `OrderedMap`, `Decimal` and `Wrappers` are helpers.
  - `OrderedMap` models a JavaScript object as an insertion-ordered key list plus a map. `Object.keys`, `Object.entries` and `Object.values` follow the key order. Reassigning a key keeps its place.

The model follows the code in these places:
- An unrecognised range key falls back to today's one-day span; nothing rejects it. The key list at `scripts/fetchAndPush.js:14` is never consulted.
- The summary keeps a label when some total is strictly positive, not merely non-zero.
- Any ledger row with two or more cells is a data row once a label has been seen.

Environment inputs are parameters:
- "today" is a `Date` argument of `ComputeRange`;
- the locale date text is an argument of `BlockLabel`;
- the CSV parser is a function argument of `AggregateByBuyer`.

## Model

| member | source | states |
|---|---|---|
| RangeResolver.ComputeRange | scripts/fetchAndPush.js:16-42 | For a valid today, every key, recognised or not, yields two valid dates with the start on or before the end; no key is refused |
| RangeResolver.YesterdaySpan | scripts/fetchAndPush.js:23-25 | "Yesterday" is the one-day span of the calendar day immediately before today, across month and year boundaries |
| Calendar.PrevDayIsImmediate | scripts/fetchAndPush.js:24 | No valid date lies strictly between the day before d and d, so "the day before" is the immediate predecessor |
| RangeResolver.ThisMonthSpan | scripts/fetchAndPush.js:26-29 | "This month" runs from the first of the current month to today |
| RangeResolver.LastMonthSpan | scripts/fetchAndPush.js:30-33 | "Last month" starts on day 1 of the previous month (December of the previous year in January) and ends on that month's last day, the day before the first of the current month |
| Calendar.JsDatePrevMonth | scripts/fetchAndPush.js:31 | Month index one below the current month is the previous month, wrapping into December of the previous year |
| Calendar.JsDateDayZero | scripts/fetchAndPush.js:32 | Day 0 of a month is the day before its first day |
| RangeResolver.ThisYearSpan | scripts/fetchAndPush.js:34-37 | "This year" runs from 1 January of the current year to today |
| RangeResolver.FallbackSpan | scripts/fetchAndPush.js:19-40 | "Today" and every key outside the four others give the one-day span of today |
| RangeResolver.Fmt | scripts/fetchAndPush.js:44-46 | The filter text has ten characters and no dash, and for years 0 to 9999 has the shape DDDD/DD/DD |
| RangeResolver.FmtRoundTrip | scripts/fetchAndPush.js:44-46 | For four-digit years, reading the filter text back gives exactly the date it was made from |
| CsvAggregator.SplitLines | scripts/fetchAndPush.js:129 | Splitting on newline gives at least one piece and no piece contains a newline |
| CsvAggregator.JoinSplit | scripts/fetchAndPush.js:129-131 | Joining the split pieces with newline gives back the original text |
| CsvAggregator.FindHeader | scripts/fetchAndPush.js:130 | The index found is the first line that starts with the header token, or the line count when there is none |
| CsvAggregator.KeepFromHeader | scripts/fetchAndPush.js:129-131 | The kept text is a suffix of the export |
| CsvAggregator.KeepFromHeaderShape | scripts/fetchAndPush.js:129-131 | The kept suffix starts at a line start and is either a line that starts with the header token and everything after it, or a last line with no newline |
| CsvAggregator.KeepFromHeaderIsFirst | scripts/fetchAndPush.js:130 | No line before the kept text starts with the header token; when the kept text is not a header line, no line of the export is one, which is the -1 case of findIndex |
| CsvAggregator.SkipPreambleKeepsFromHeader | scripts/fetchAndPush.js:129-131 | Split, findIndex, slice and join give exactly the text-level reading above, including the -1 case where only the last line is kept |
| JsNumber.ParseIntOr0Decomposed | scripts/fetchAndPush.js:137 | White space, at most one sign, a run of digits and a non-digit tail parse to the signed value of the digits; a negative zero becomes 0 |
| JsNumber.ParseIntOr0NotANumber | scripts/fetchAndPush.js:137 | A field that is not a number counts as 0: after the leading blanks, a sign followed by anything but a digit ("--5", "- 5"), a first character that is neither a sign nor a digit, or nothing at all |
| JsNumber.ParseIntOr0 | scripts/buildSummary.js:33 | A non-zero reading implies the text contains a digit |
| CsvAggregator.Tally | scripts/fetchAndPush.js:134-139 | The totals object has the distinct user names as keys in first-seen order, and each value is that user's sum of quantities |
| CsvAggregator.AggregateRecords | scripts/fetchAndPush.js:134-140 | One row per distinct user name, none repeated, in first-seen order (the buyers are exactly the deduplicated user names), each carrying the sum of that user's quantities; no records give no rows |
| CsvAggregator.AggregateConservesTotal | scripts/fetchAndPush.js:134-140 | The per-buyer totals add up to the sum of all records' quantities |
| CsvAggregator.AggregateByBuyer | scripts/fetchAndPush.js:128-141 | The rows are exactly the distinct user names of the records parsed from the text kept from the header line, in first-seen order, with their summed quantities |
| RawLedgerWriter.BlockLabel | scripts/fetchAndPush.js:112 | The label is the range key, then " (", then the date text, then ")" |
| RawLedgerWriter.BlockLabelDeterminesDate | scripts/fetchAndPush.js:112 | Under one range key, equal labels mean equal date texts, so runs on different dates write different labels |
| RawLedgerWriter.LedgerBlock | scripts/fetchAndPush.js:111-116 | A block is the label row, the fixed header row, one buyer/total row per aggregate in order, and an empty row |
| JsNumber.ToDecimalRoundTrip | scripts/buildSummary.js:33 | A total written to the ledger and read back as text parses to the same total |
| SummaryBuilder.Classify | scripts/buildSummary.js:27-30 | A row opens a block exactly when it has one non-empty cell, and is a data row exactly when it has two or more cells |
| SummaryBuilder.LabelRowOpensBlock | scripts/buildSummary.js:27-29 | A label row becomes current and empties its bucket; a new label is appended to the label order, a repeated one keeps its place; other buckets are untouched |
| SummaryBuilder.DataRowSetsTotal | scripts/buildSummary.js:30-34 | After a label, a data row not headed "Buyer" sets that buyer's total in the current bucket to the parsed quantity and changes nothing else |
| SummaryBuilder.LastWriteWins | scripts/buildSummary.js:33 | Of two rows for the same buyer in one block, the later quantity is the one kept |
| SummaryBuilder.SkippedRows | scripts/buildSummary.js:26-36 | Empty rows, single empty cells, "Buyer" header rows, and data rows before any label leave the scan unchanged |
| SummaryBuilder.ScanFromAppend | scripts/buildSummary.js:26-36 | Scanning two row runs in one pass equals scanning the second from the state the first left |
| SummaryBuilder.NothingBeforeFirstLabel | scripts/buildSummary.js:25-36 | A ledger with no label row yields an empty table state |
| SummaryBuilder.KeptLabels | scripts/buildSummary.js:39-41 | A label is kept exactly when its bucket has a strictly positive total; kept labels are distinct and keep the ledger's label order |
| SummaryBuilder.ConcatKeys | scripts/buildSummary.js:45 | A name occurs in the flattened key list exactly when it is a buyer of one of the given labels' buckets |
| SummaryBuilder.ConcatKeysAppend | scripts/buildSummary.js:45 | The flattened list is in flatMap order: an earlier label's keys come before a later one's, and one label contributes its bucket's keys in their order |
| SummaryBuilder.SummaryBuyers | scripts/buildSummary.js:44-46 | The summary buyers are distinct and are exactly the buyers of the kept labels, in order of first appearance |
| SummaryBuilder.BuildSummary | scripts/buildSummary.js:49-57 | The matrix has a header of "Buyer" and the kept labels, then one row per summary buyer; each cell is that block's total for the buyer, or 0 when the block has none |
| SummaryBuilder.BlankRowIgnored | scripts/buildSummary.js:24-57 | A blank row anywhere in the ledger, including the separator that ends each block, never changes the summary |
| LedgerRoundTrip.BlockReadsBack | scripts/buildSummary.js:26-36 | A block written by an ingest run (see scripts/fetchAndPush.js:111-116), with distinct buyers none of whom is named "Buyer", reads back with its label current and its bucket holding each buyer's total in written order; other blocks are untouched |
| LedgerRoundTrip.IngestThenScan | scripts/buildSummary.js:26-36 | For a report with no user named "Buyer", after its block is scanned the label's bucket has exactly the report's distinct user names as keys, in first-seen order, and maps each to the sum of that user's quantities |
| LedgerRoundTrip.RerunReplacesBlock | scripts/buildSummary.js:27-30 | A second block under the same label (same key, same date) takes over the label's bucket: only the later totals remain, and the label keeps one place in the label order |
| LedgerRoundTrip.AppendThenScan | scripts/fetchAndPush.js:111-124 | After a run appends its block to the ledger, the rebuild reads the new label as exactly the written totals. The label goes to the end of the label order unless an earlier block used it, and every other earlier block reads back as before (the scan is at scripts/buildSummary.js:26-36) |
| LedgerRoundTrip.TwoBlocks | scripts/buildSummary.js:26-36 | Two blocks with different labels read back as two buckets in ledger order, each holding its own totals |
| LedgerRoundTrip.ZeroBlockDropped | scripts/buildSummary.js:38-57 | For block "A" (Alice 0, Bob 0) then block "B" (Alice 3, Bob 0), the summary has only column "B"; Bob keeps a zero row |

## Left out

- Browser automation is not modelled: logging in, navigating, injecting the filter text and downloading the export (`scripts/fetchAndPush.js:48-102`). It is external I/O. The filter text it types is modelled by `Fmt`.
- The debug dump of the raw CSV to disk is not modelled; it is file I/O.
- Spreadsheet API calls, authentication and environment loading are not modelled: the append and the read-back are network I/O. The ledger is a sequence of rows, and `AppendBlock` stands for the append.
- The top-level driver is not modelled. It reads the range key from the command line, defaulting to "Today", and exits with status 1 on any error. That is process control.
- The CSV parser (`csv-parse`) is foreign code and is a function argument of `AggregateByBuyer`. Its quoting rules, its handling of empty lines and its errors on malformed input are outside the model.
- A record whose "User Name" field is missing would be keyed as "undefined" in the source. `Record.userName` is always a string, so a parser model must supply that text itself.
- ComputeRange: does not model the host clock, time zones or the time of day. "Today" is a calendar date argument. The model also does not capture that `toISOString` renders the UTC date, which can be a different day from the local one.
- FmtRoundTrip: covers only years 0 to 9999. The signed six-digit years are modelled in `IsoYear`. For them the first ten characters end just after the month (`+010000-01-05` gives `+010000/01`), so the day is lost and the text does not read back. The `Date` range limit of ±100,000,000 days and the mapping of years 0-99 to 1900-1999 are not modelled; neither arises from a real clock reading.
- BlockLabel: does not model the locale date text; `toLocaleDateString` depends on the host locale, so that text is an argument.
- Numbers are unbounded integers. Totals beyond 2^53, where JavaScript numbers lose precision, are not modelled, and neither is `parseInt` on digit runs that long.
- JavaScript objects put integer-like keys (such as a buyer named "42") before other keys in ascending numeric order, and keys inherited from the object prototype, such as "constructor", behave specially. `OrderedMap` keeps plain insertion order for every key.
- The spreadsheet may render written numbers with its own number format when they are read back. The model assumes plain decimal text (`ToDecimal`), and assumes that written rows come back with the same cells. Trailing empty cells are trimmed by the API, which the model covers because a blank row is skipped either way.
- Running the rebuild twice on the same ledger gives the same table. This holds by construction, since `BuildSummary` is a function of the ledger rows, and no lemma states it. `BlankRowIgnored` states a different property: blank rows do not change the table.
- The console logging in both scripts is not modelled.
- BlockReadsBack, IngestThenScan: hold only for blocks with no buyer named "Buyer". The rebuild skips every data row whose first cell is "Buyer" (`scripts/buildSummary.js:32`), so such a user's totals never reach the summary. `SkippedRows` states that skip.
