# Billing-Expense dashboard: the data core in Dafny

This project models the data handling of the Flask expense dashboard in
`app.py`. It covers the following:

- **`read_sheet`** (`app.py:32-76`). It fetches the expense sheet as CSV. It
  renames every header through a first-match chain of substring tests, adds
  each missing canonical column filled with `""`, converts the `date` column
  and strips every amount cell down to digits and dots (ASCII digits only, in
  this model) before `float` conversion. When the fetch fails it returns an empty table with the eleven
  canonical columns.
- **`last_months`** (`app.py:79-85`). It computes the monthly totals of the
  latest `n` months that have dated rows, oldest first, labelled `"%b %Y"`.
- **`api_data`** (`app.py:130-171`). It applies the optional month filter and
  computes the total, the per-tool and per-department breakdowns sorted by
  amount, and the six-month trend.
- **`add`** (`app.py:96-127`). It builds the payload posted to the sheet: the
  form's fields with their defaults, and the receipt, which is the saved
  upload's path or otherwise the form's text.

The modules follow that structure:

| module | file | what it holds |
|---|---|---|
| `Wrappers` | `wrappers.dfy` | `Option` and `Result` |
| `Text` | `text.dfy` | `str.lower`, the `in` substring test, `str(n)`, `int(text)` |
| `Headers` | `headers.dfy` | header classification (`col_map`) and its loop |
| `Amounts` | `amounts.dfy` | amount sanitising and Python `float` on digits and dots |
| `Schema` | `schema.dfy` | tables of text cells, renaming, the completion loop |
| `Reading` | `reading.dfy` | `read_sheet` end to end, with its error cases |
| `Grouping` | `grouping.dfy` | `groupby(...).sum()` and a sort by a numeric rank |
| `Reports` | `reports.dfy` | month filter, total, breakdowns, `last_months`, `api_data` |
| `Payload` | `payload.dfy` | the payload of `add` and the receipt path |

`read_sheet`'s two loops are methods with loop invariants, proved equal to
the functions that specify them:

- `Headers.MapColumns` is the `col_map` loop.
- `Schema.AddMissingColumns` is the "ensure required columns" loop.

They meet in `Reading.ReadSheet`. Everything downstream of the table is pure.
Those functions carry the properties as `ensures` clauses and lemmas.

Behaviour of `app.py` that is easy to misread:

- An amount cell with no digit, such as `"n/a"`, `"-"` or an empty cell, does
  not become 0. After sanitising nothing is left, and `astype(float)` raises
  on `""` before `fillna(0)` runs. The read then fails with `NotANumber`
  (`Amounts.ExampleNotANumber`, `Reading.ConvertFailsIff`).
- When the fetch fails, the fallback table's `date` column is not of datetime
  type.
  - The month filter's `.dt` raises, and its bare `except` swallows the error.
  - `last_months` calls `.dt` with no such guard, so `api_data` fails. It does
    not return an empty response (`Reports.ApiDataFetchFailure`).
- `"Dept"` and `"Amt (USD)"` keep their names: none of the chain's words
  occurs in them. So a sheet with those headers gets added `department` and
  `amount` columns of `""`. When the sheet has at least one row, its read then
  fails on the empty amounts (`Reading.ConvertFailsIff`); a sheet with no rows
  reads without error (`Headers.ExampleDept`, `Headers.ExampleAmt`).
  `"Purchase Date"` and `"Service Used"` are recognised
  (`Headers.ExamplePurchaseDate`, `Headers.ExampleServiceUsed`).
- Two headers that classify to the same name are both renamed to it. Neither
  one "wins".
  - A doubled `date` or `amount` makes the conversion raise.
  - A doubled `tool` or `department` makes `api_data`'s `groupby` raise.
  - A doubled other column is carried along.

## Model

| member | source | states |
|---|---|---|
| Text.Lower | app.py:45 | `.lower()` keeps the length, lower-cases each ASCII letter and keeps every other character in place |
| Text.LowerOfLowerCase | app.py:45 | a header without upper-case letters is tested as it stands |
| Text.LowerIsLowerCase | app.py:45 | the lower-cased header has no upper-case letter, and lower-casing it again changes nothing |
| Text.ParseInt | app.py:139 | `int(month)`: white space around an optional sign and at least one decimal digit, otherwise a failure |
| Text.ParseIntOfNatToString | app.py:139 | `int` reads back the decimal text of every non-negative number |
| Text.ParseIntNeedsDigit | app.py:139 | a month text without an ASCII digit is refused by `int` |
| Headers.Target | app.py:46-57 | the chain's result is a canonical name or the header itself |
| Headers.Classify | app.py:44-57 | classification is total: every header is mapped to a canonical name or to itself |
| Headers.ClassifyIsFirstMatch | app.py:46-57 | the `if`/`elif` chain equals first-match-wins evaluation of the ordered rule table |
| Headers.ClassifyFirstWins | app.py:46-56 | when rule `i` is the first rule in source order that holds, the header becomes the `i`-th canonical name |
| Headers.ClassifyUnmatched | app.py:57 | a header for which no rule holds keeps its own name |
| Headers.ClassifyNoKeyword | app.py:57 | a header mentioning none of the thirteen words keeps its own name |
| Headers.ClassifyTotal | app.py:46-57 | every header either satisfies no rule or has a first rule that holds |
| Headers.FixedUsedBy | app.py:48 | "used_by" is taken by the "use" test and maps to itself |
| Headers.FixedDepartment | app.py:49 | "department" passes the "use" test untouched and maps to itself |
| Headers.FixedStatus | app.py:52 | "status" passes the "use" test untouched and maps to itself |
| Headers.CanonicalIsFixed | app.py:46-56 | every one of the eleven canonical names is classified as itself |
| Headers.ClassifyIdempotent | app.py:44-57 | classifying a classified header changes nothing |
| Headers.ExamplePurchaseDate | app.py:46 | "Purchase Date" becomes "date" |
| Headers.ExampleDateUsed | app.py:46-48 | "Date Used" is not a purchase date and becomes "used_by" |
| Headers.ExampleServiceUsed | app.py:47 | "Service Used" becomes "tool", since the tool test precedes the use test |
| Headers.ExampleRenewalDate | app.py:46-54 | "Renewal Date" fails the date test and becomes "renewal" |
| Headers.ExampleDept | app.py:57 | "Dept" keeps its name |
| Headers.ExampleAmt | app.py:57 | "Amt (USD)" keeps its name |
| Headers.MapColumns | app.py:43-57 | the loop's map has one entry per header, holding that header's classification |
| Amounts.Sanitize | app.py:71 | the result holds only digits and dots and is no longer than the cell |
| Amounts.SanitizeAppend | app.py:71 | sanitising distributes over concatenation |
| Amounts.SanitizeKeeps | app.py:71 | a text of digits and dots is left unchanged |
| Amounts.SanitizeIdempotent | app.py:71 | sanitising twice is sanitising once |
| Amounts.SanitizeDropsAll | app.py:71 | a text without digits or dots sanitises to "" |
| Amounts.SanitizeDigits | app.py:71 | the sanitised text has a digit exactly when the cell has one |
| Amounts.ParseDecimal | app.py:72 | `float` on a digits-and-dots text yields a value that is never negative |
| Amounts.ParseDecimalSucceedsIff | app.py:72 | `float` accepts such a text exactly when it has at most one dot and at least one digit |
| Amounts.ParseDecimalOfNat | app.py:72 | the decimal text of a number reads back as that number |
| Amounts.ParseAmount | app.py:68-73 | a stored amount is never negative |
| Amounts.ParseAmountNeedsDigit | app.py:68-73 | a cell with no ASCII digit makes the conversion fail rather than give 0 |
| Amounts.SanitizeCurrencyText | app.py:71 | a currency sign and a thousands separator are dropped, leaving the digits and the dot in order |
| Amounts.ExampleCurrencyText | app.py:68-73 | "$1,234.50" is stored as 1234.5 |
| Amounts.ExampleNotANumber | app.py:68-74 | "n/a" makes the conversion fail |
| Schema.Renamed | app.py:59 | the renamed table keeps its rows and replaces each header by its classification |
| Schema.Blanks | app.py:64 | `n` cells, all "" |
| Schema.MissingFrom | app.py:62-63 | exactly the canonical names that are not headers yet |
| Schema.Extend | app.py:64 | added columns are appended after the existing ones, and each row gains one "" per added column |
| Schema.AddMissingColumns | app.py:62-64 | the loop's table equals the completion of its input |
| Schema.Complete | app.py:62-64 | no contract of its own; the table `read_sheet` has after its completion loop, whose properties `Schema.CompleteHasCanonical`, `Schema.CompleteKeeps`, `Schema.CompleteFills`, `Schema.CompleteOfComplete` and `Schema.CompleteIdempotent` state |
| Schema.CompleteHasCanonical | app.py:62-64 | every canonical column is present after completion |
| Schema.CompleteKeeps | app.py:62-64 | the existing headers and cells are kept in place |
| Schema.CompleteFills | app.py:62-64 | the headers afterwards are the old ones plus the canonical ones, and every added cell is "" |
| Schema.CompleteOfComplete | app.py:62-64 | a table that already has every canonical column is unchanged |
| Schema.CompleteIdempotent | app.py:62-64 | completing twice is completing once |
| Reading.Fallback | app.py:37-40 | the table of a failed fetch has the canonical columns, no rows and no datetime date column |
| Reading.FirstDuplicate | app.py:67-72 | nothing is found exactly when each name heads at most one column; a name found heads more than one |
| Reading.ConvertRow | app.py:67-74 | a row converts exactly when its amount cell parses; then its amount is that value, its date is the parsed date cell, and its cells are kept |
| Reading.ConvertRows | app.py:67-74 | the rows convert exactly when each row does, in order and one for one |
| Reading.Convert | app.py:66-76 | a converted table keeps its headers and cells and has a datetime date column; every row's amount is the sanitised amount cell's value, never negative, its date is the parsed date cell, and its tool and department are those cells |
| Reading.ReadSheetSpec | app.py:32-76 | no contract of its own; what `read_sheet` returns, which `Reading.ReadSheet` computes and `Reading.ReadSheetHasCanonical` and `Reading.ReadSheetRows` describe |
| Reading.ReadSheet | app.py:32-76 | the method's result equals the specification of `read_sheet` on the fetch result |
| Reading.ReadSheetHasCanonical | app.py:32-76 | a successful read has every canonical column, on the fetched path and the fallback path |
| Reading.ReadSheetRows | app.py:59-76 | a successful read has every canonical column, keeps every fetched cell in place and fills added cells with ""; each row's amount is the sanitised amount cell's value, never negative, its date is the parsed date cell, and its tool and department are those cells |
| Reading.CountAtMostOne | app.py:37-40 | in a header list without repeats, as the fallback table's, each name heads at most one column |
| Reading.ConvertFailsIff | app.py:67-74 | with single "date" and "amount" columns, the read fails exactly when some amount cell does not parse |
| Reading.ConvertDuplicate | app.py:67-72 | a doubled "date" or "amount" column makes the read fail |
| Grouping.Keys | app.py:147-148 | the group keys are exactly the keys present, each once |
| Grouping.GroupedOver | app.py:147-149 | one entry per listed key, holding the sum of that key's amounts |
| Grouping.Grouped | app.py:147-149 | no contract of its own; the grouped sums, whose entries `Grouping.GroupedEntries`, `Grouping.GroupedDistinctKeys` and `Grouping.GroupedTotal` describe |
| Grouping.GroupedEntries | app.py:147-149 | an entry is a present key paired with its sum, and every present key has its entry |
| Grouping.GroupedDistinctKeys | app.py:147-149 | no key appears in two entries |
| Grouping.GroupedTotal | app.py:147-149 | the group sums add up to the sum of all amounts |
| Grouping.SortBy | app.py:150 | the sorted sequence is a permutation of its input and is ordered by the rank |
| Grouping.SumSortBy | app.py:150 | sorting does not change the sum of the amounts |
| Grouping.PermutationMembers | app.py:150 | sorting keeps exactly the same entries |
| Grouping.PermutationDistinct | app.py:150 | sorting keeps the keys distinct |
| Reports.RowsInMonth | app.py:139 | the rows kept are exactly the rows dated in month `k` |
| Reports.MonthFilter | app.py:137-141 | the filter keeps the columns and the date type |
| Reports.MonthFilterUnchanged | app.py:137-141 | "All", a non-datetime date column, or a text `int` refuses leaves the table unchanged |
| Reports.RowsInMonthSingle | app.py:139 | a single row is kept exactly when its date falls in month `k` |
| Reports.RowsInMonthAppend | app.py:139 | the filter distributes over concatenation, so kept rows stay in order |
| Reports.RowsInMonthCount | app.py:139 | each row dated in month `k` is kept exactly as often as it occurs, and no other row is kept |
| Reports.MonthFilterKeeps | app.py:137-139 | for an integer month, exactly the rows whose date falls in that month are kept, each as often as it occurs, in order |
| Reports.MonthFilterOutOfRange | app.py:139 | a month number outside 1..12 keeps no row |
| Reports.ExampleMonthThirteen | app.py:139 | month "13" keeps no row |
| Reports.ExampleMonthName | app.py:138-141 | month "March" leaves the table unchanged |
| Reports.Total | app.py:144 | no contract of its own; the sum of the amounts, which `Reports.TotalNonNegative`, `Reports.TotalAppend` and `Reports.RowsInMonthTotal` describe |
| Reports.TotalNonNegative | app.py:144 | the total of non-negative amounts is non-negative |
| Reports.TotalAppend | app.py:144 | the total distributes over concatenation |
| Reports.RowsInMonthTotal | app.py:137-144 | filtering by month never raises the total |
| Reports.Pairs | app.py:147 | one (key, amount) pair per row, in order |
| Reports.Breakdown | app.py:146-160 | no contract of its own; the sorted group sums, which `Reports.BreakdownDescending`, `Reports.BreakdownEntries`, `Reports.BreakdownDistinct` and `Reports.BreakdownTotal` describe |
| Reports.BreakdownDescending | app.py:150 | breakdown amounts never increase from one entry to the next |
| Reports.BreakdownEntries | app.py:146-149 | an entry is a key some row has, paired with the sum of that key's amounts, and every such key has its entry |
| Reports.PairsHasKey | app.py:147 | a key is present among the pairs exactly when some row has it |
| Reports.BreakdownDistinct | app.py:146-149 | exactly one entry per distinct key |
| Reports.BreakdownTotal | app.py:144-160 | each breakdown's amounts add up to the total |
| Reports.OrdinalInjective | app.py:81-83 | distinct months have distinct positions in time |
| Reports.DatedPairs | app.py:80-81 | the months present are exactly the months of the dated rows |
| Reports.RowsInPeriod | app.py:80-82 | the rows kept are exactly the rows dated in the period |
| Reports.DatedPairsSum | app.py:80-82 | a period's sum over the dated pairs is the total of that period's rows |
| Reports.MonthlyTotals | app.py:80-83 | no contract of its own; the sorted monthly sums, which `Reports.MonthlyTotalsFacts`, `Reports.MonthlyTotalsAscending` and `Reports.MonthlyTotalsHas` describe |
| Reports.MonthlyTotalsFacts | app.py:80-83 | one monthly total per month present, each the month's sum, in strictly ascending month order |
| Reports.MonthlyTotalsAscending | app.py:80-83 | the monthly totals run strictly forward in time |
| Reports.MonthlyTotalsHas | app.py:80-82 | every month with a dated row has its monthly total |
| Reports.Latest | app.py:83 | at most the last `n` elements, in their order |
| Reports.Points | app.py:84 | each monthly total becomes a point labelled with its month |
| Reports.LastMonths | app.py:79-85 | no contract of its own; `last_months`, which `Reports.LastMonthsUndated`, `Reports.TrendLength`, `Reports.TrendPoints`, `Reports.TrendTotals` and `Reports.TrendLatest` describe |
| Reports.LastMonthsUndated | app.py:81 | without a datetime date column `last_months` fails |
| Reports.TrendLength | app.py:79-85 | the trend has min(n, months present) points, so never more than `n` |
| Reports.TrendPoints | app.py:79-85 | the points are strictly ascending and free of duplicates; each is a month present, holds its month's sum and carries its month's label |
| Reports.LatestExcludes | app.py:83 | a month left out of the tail comes before every month in it |
| Reports.TrendTotals | app.py:79-85 | each point's amount is the total of the rows dated in its month |
| Reports.TrendLatest | app.py:79-85 | the points are the latest months: any month present but left out is older than all of them |
| Reports.Label | app.py:84 | no contract of its own; the month label, whose shape `Reports.LabelShape` states |
| Reports.LabelShape | app.py:84 | a label is the three-letter month, a space and four digits that read back as the year |
| Reports.ApiData | app.py:130-171 | no contract of its own; the `api_data` handler, which `Reports.ApiDataNotOneColumn`, `Reports.ApiDataFetchFailure`, `Reports.ApiDataUndated`, `Reports.ApiDataFromRows`, `Reports.ApiDataFigures` and `Reports.ApiDataTrend` describe |
| Reports.ApiDataNotOneColumn | app.py:146-160 | a doubled "tool" or "department" column makes the request fail |
| Reports.ApiDataFetchFailure | app.py:163 | when both reads return the fallback table, the request fails at the trend's `.dt` |
| Reports.ApiDataUndated | app.py:146-163 | with single "tool" and "department" columns, a trend sheet without a datetime date column makes the request fail at `.dt` |
| Reports.MonthFilterNonNegative | app.py:137-141 | filtering by month keeps the amounts non-negative |
| Reports.ApiDataFromRows | app.py:137-160 | the response's total and breakdowns are computed from the month-filtered rows of the first read |
| Reports.ApiDataFigures | app.py:137-160 | the total is the filtered rows' non-negative total, and each breakdown sums to it in non-increasing order |
| Reports.ApiDataTrend | app.py:162-171 | the trend is `last_months(…, 6)`'s labels and amounts in order, at most six of them |
| Payload.JoinPath | app.py:105 | an absolute name replaces the folder; otherwise one "/" separates them |
| Payload.ReceiptPath | app.py:107 | no contract of its own; the stored path of a saved receipt, which `Payload.ReceiptPathShape` and `Payload.ReceiptPathInFolder` describe |
| Payload.ReceiptPathShape | app.py:107 | the receipt path starts with "/" and contains no backslash |
| Payload.ReceiptPathInFolder | app.py:105-107 | a relative file name is stored as "/", the folder, "/" and the name |
| Payload.UploadFolderPlain | app.py:14 | the receipts folder has no trailing "/" and no backslash |
| Payload.FormGet | app.py:110 | a field the form sends is taken from it; otherwise the default is used |
| Payload.SavedReceipt | app.py:102-107 | the receipt path is "" exactly when no file, or a file with an empty name, was uploaded |
| Payload.BuildPayload | app.py:109-122 | no contract of its own; the `payload` dictionary, which `Payload.PayloadFields`, `Payload.PayloadFromForm`, `Payload.ReceiptOfUpload`, `Payload.ReceiptOfForm` and `Payload.PayloadOfEmptyForm` describe |
| Payload.PayloadFields | app.py:109-122 | the payload has exactly the twelve fields |
| Payload.PayloadFromForm | app.py:110-121 | each field except the receipt is the form's value, or "0" for the amount, "USD" for the currency and "" otherwise |
| Payload.ReceiptOfUpload | app.py:103-120 | with an uploaded file, the receipt is the saved file's path, absolute and with forward slashes |
| Payload.ReceiptOfForm | app.py:120 | without an uploaded file, the receipt is the form's text |
| Payload.PayloadOfEmptyForm | app.py:109-122 | an empty form with no file gives every field its default |

## Left out

- I/O is not modelled. This covers `pd.read_csv` over the network, `requests.post` in `send_to_sheet`, `file.save`, `render_template`, `redirect`, `jsonify` and the console logging. Each request's fetch result is a parameter: `Option<Frame>` for `Reading.ReadSheet`, and two `Result`s for `Reports.ApiData`.
- Reading.ReadSheet: `pd.to_datetime(..., errors="coerce")` is a parameter `parseDate` from text to an optional date. Pandas' date parsing is library behaviour.
- Amounts.ParseDecimal: values are exact decimals. Binary floating-point rounding of `float` and of the sums is not modelled.
- Text.ParseInt: underscores between digits, non-ASCII digits and non-ASCII white space (such as U+00A0 around the number), which Python's `int` also accepts, are not modelled. Nor is the limit of 4300 digits that Python 3.11 and later put on `int` of a decimal text: there a month text of more digits raises, the bare `except` swallows it and the table is left unchanged, while the model reads the number and keeps no row (`Reports.MonthFilterOutOfRange`).
- Amounts.Sanitize: only the ASCII digits 0-9 are kept. The `\d` of the pattern and Python's `float` also accept the other Unicode decimal digits (a cell "١٢" is stored as 12.0 by the code), and the model drops them instead.
- ParseAmountNeedsDigit: "no digit" means no ASCII digit; a cell whose only digits are other Unicode decimal digits is converted by the code but fails in the model, as `Amounts.Sanitize` above says.
- Text.Lower: only ASCII letters are lower-cased. Unicode case mapping is not modelled.
- Cells are text. A `Frame` cell stands for `str()` of the value `read_csv` produced, which is what `astype(str)` hands to the sanitising. `read_csv`'s typing of numeric columns is not modelled: in an all-numeric amount column a cell `1e3` is read as 1000.0 and rendered "1000.0", while the model sanitises the raw text "1e3" to "13". Pandas' NaN for an empty CSV cell is not modelled, and neither is `groupby` dropping NaN keys.
- Reports.BreakdownTotal: the equality with the total holds because cells are text. In pandas, rows whose `tool` or `department` cell is empty (NaN) count towards the total but towards no breakdown entry.
- Reports.Breakdown: pandas' unstable `sort_values` leaves the order of equal amounts unspecified, so the breakdown lemmas state nothing about it. The model puts the first key seen first.
- Reading.Convert: a doubled `date` or `amount` column becomes an error value. This stands for what pandas raises there. The doubled column's own semantics are not modelled.
- Reports.ApiData: a Python exception becomes an error value. The HTTP 500 it produces and the `fillna("")` and `to_dict` formatting of the response are not modelled.
- The `strftime("%b %Y")` label uses the English (C locale) month abbreviations. Other locales are not modelled.
- Payload: `secure_filename` is a parameter `secure`. The time stamp from `datetime.utcnow()` is a field of `Upload`. The multi-valued form is a map from each field to its first value.
- The `/` route and the `GET` branch of `/add` only render templates, so they are not modelled.
- The `/download/csv` route writes `read_sheet`'s table to a file with `to_csv`. That is file I/O, so it is not modelled.
