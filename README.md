# Sky Cafe back-office reports, modelled in Dafny

This project models the reporting engine of the Sky Cafe & Board Game back
office (`GoogleSheetsAPI` in `google_sheets_api.py`). The engine reads the
invoice table `HOA_DON` and the customer table `KHACH_HANG` of a Google
spreadsheet and builds four reports from them:

- the dashboard summary;
- the top-ten product ranking;
- the customer ranking;
- the revenue series by day, week or month.

It also keeps a cached running total per customer (`update_customer_spent`)
and derives the code of a new customer (`create_customer`). The model proves
properties of all of these.

The spreadsheet itself is an input. Each record is a dictionary from column
header to cell (`Sheet.Cell`, text or a whole number, as the sheet client
hands it over).

Modules, one per file:

- `text.dfy` (`Text`): the Python string built-ins the code relies on.
  - `str.strip` with Python's whitespace set.
  - `zfill`.
  - `int()` on ASCII digits with an optional sign.
  - `str.replace` with a single character or with a pattern.
  - `split`.
  - string `<`.
  - `f"{n:,}"`.
- `seqs.dfy` (`Seqs`), `tally.dfy` (`Tally`), `sorting.dfy` (`Sorting`):
  - list comprehensions with `if`, and `sum(...)`;
  - a loop that stops at its first exception (`MapWhile`);
  - the search of a `for` loop that `break`s at its first match (`FindFirst`);
  - the insertion-ordered dictionary accumulator `if k in d: d[k] += v else: d[k] = v`;
  - Python's stable `sorted(..., key=..., reverse=...)`.
- `sheet.dfy` (`Sheet`): cells, Python truthiness and `str()` of a cell, and
  invoice rows.
- `dates.dfy` (`Dates`): `_parse_invoice_date`.
- `amounts.dfy` (`Amounts`): `_safe_parse_amount`.
- `filter.dfy` (`DateFilter`): `_filter_invoices_by_date`, as a loop proved
  equal to a filter.
- `dashboard.dfy` (`Dashboard`): the figures of `get_dashboard_stats`, and
  the `NameError` that keeps the method from returning them.
- `products.dfy` (`Products`): `get_product_stats`.
- `customers.dfy` (`Customers`): the row mapping of `get_customers` and the
  customer code of `create_customer`.
- `customerstats.dfy` (`CustomerStats`): `get_customer_stats`.
- `revenue.dfy` (`Revenue`): `get_revenue_stats`.
- `ledger.dfy` (`Ledger`): `update_customer_spent`, as a class
  `CustomerSheet` whose rows the method updates in place.

Every loop of the source is a method with loop invariants. Each method is
proved equal to a specification function, and the report properties are
lemmas about those functions.

## Model

| member | source | states |
|---|---|---|
| Text.Strip | google_sheets_api.py:30 | The stripped text is no longer than the input and neither starts nor ends with whitespace. |
| Text.StripUnchanged | google_sheets_api.py:30 | Text that neither starts nor ends with whitespace is its own strip. |
| Text.StripLeft | google_sheets_api.py:30 | Only leading whitespace is removed: the result is a suffix of the input, everything dropped is whitespace, and the result does not start with whitespace. |
| Text.StripRight | google_sheets_api.py:30 | Only trailing whitespace is removed: the result is a prefix of the input, everything dropped is whitespace, and the result does not end with whitespace. |
| Text.ParseDigits | google_sheets_api.py:50 | `int()` of a non-empty digit string is the number those digits spell. |
| Text.IntToStringRoundTrip | google_sheets_api.py:77 | Parsing `str(n)` gives back `n` for every integer. |
| Text.ZFillDigits | google_sheets_api.py:46-48 | Zero-padding a digit string keeps it a digit string with the same value. |
| Text.LeadingZeros | google_sheets_api.py:46-48 | Leading zeros do not change the value of a digit string. |
| Text.DigitsValueAppend | google_sheets_api.py:50 | The value of two digit strings written one after the other is the first value shifted by the second's length, plus the second value. |
| Text.RemoveCharConcat | google_sheets_api.py:69 | Deleting a character works piecewise over a concatenation. |
| Text.RemoveAllSuffix | google_sheets_api.py:603 | Deleting every ` đ` from a text that ends in ` đ` and has no other space gives back the text before it. |
| Text.SplitAt | google_sheets_api.py:40 | Splitting at a separator gives the part before the first separator, then the split of the rest. |
| Text.SplitFirst | google_sheets_api.py:34 | The first field of a split is the prefix up to the first separator. |
| Text.LexLeTotalOrder | google_sheets_api.py:98 | Python's `<=` on strings is total, antisymmetric and transitive. |
| Text.LexLessAt | google_sheets_api.py:98 | Strings equal up to position `k` compare as their characters at `k` do. |
| Text.LexLessDigits | google_sheets_api.py:98 | Equal-length digit strings compare as strings exactly as their values compare as numbers. |
| Text.ThousandsDigits | google_sheets_api.py:612 | Deleting the commas from `f"{n:,}"` leaves a non-empty digit string whose value is `n`. |
| Text.ThousandsChars | google_sheets_api.py:612 | `f"{n:,}"` holds only digits and commas. |
| Text.ThousandsStep | google_sheets_api.py:612 | From 1000 on, `f"{n:,}"` is `f"{n // 1000:,}"`, a comma, then the three zero-padded digits of `n % 1000`. |
| Text.GroupedValue | google_sheets_api.py:612 | The digits of `n // 1000` followed by the three-digit group of `n % 1000` spell `n`. |
| Seqs.FilterMembers | google_sheets_api.py:784 | An element is in the filtered list exactly when it is in the list and passes the test. |
| Seqs.FilterCount | google_sheets_api.py:784 | Filtering keeps every passing element as often as it occurs and drops every other one. |
| Seqs.FilterSubsequence | google_sheets_api.py:97-98 | The filtered list is a subsequence of the input, so order is kept. |
| Seqs.FilterAppend | google_sheets_api.py:784 | Filtering distributes over concatenation. |
| Seqs.SumSplit | google_sheets_api.py:685-686 | A sum splits into the sum over the elements that pass a test and the sum over those that fail it. |
| Seqs.SumAppend | google_sheets_api.py:671 | A sum over a concatenation is the sum of the two sums. |
| Seqs.MapWhileStops | google_sheets_api.py:735-750 | The first item that raises ends the loop, and what came before it stays. |
| Seqs.MapWhileAppend | google_sheets_api.py:735-750 | After a run of items that do not raise, the loop goes on with the rest. |
| Seqs.MapWhilePrefix | google_sheets_api.py:735-750 | The result is that of the prefix up to the first item that raises. |
| Seqs.FirstWhere | google_sheets_api.py:589-615 | The index found passes the test and no earlier one does; there is no index exactly when no element passes. |
| Seqs.FindFirst | google_sheets_api.py:589-615 | The loop that breaks at its first match finds the index `FirstWhere` specifies. |
| Tally.Find | google_sheets_api.py:741 | `key in d` holds exactly when the key is among the keys, and the index found holds that key. |
| Tally.Add | google_sheets_api.py:741-751 | One accumulator step keeps the keys of a present key and appends a new key at the end. |
| Tally.AddFound | google_sheets_api.py:742-743 | For a present key, the step adds the value into that key's entry and changes nothing else. |
| Tally.AddNew | google_sheets_api.py:745-750 | For a new key, the step appends the entry. |
| Tally.AddAllKeys | google_sheets_api.py:741-751 | The dictionary's keys are the entries' keys in order of first appearance, each once. |
| Tally.AddAllHasKey | google_sheets_api.py:741-751 | A key is in the dictionary exactly when some entry has it, and no key occurs twice. |
| Tally.AddAllSums | google_sheets_api.py:741-751 | The value under each key is the sum, over the entries with that key, of any measure the addition respects. |
| Tally.AddAllAppend | google_sheets_api.py:741-751 | Accumulating two batches one after the other is accumulating them all. |
| Tally.KeyedSum | google_sheets_api.py:842-847 | The keyed entries of a key sum to the sum of the values of the elements with that key. |
| Tally.KeyedKeys | google_sheets_api.py:842-847 | A key occurs among the keyed entries exactly when some element has it. |
| Tally.KeyedSkip | google_sheets_api.py:848-849 | An element without a key contributes nothing. |
| Sorting.SortByPermutation | google_sheets_api.py:753 | The sort returns a permutation of its input. |
| Sorting.SortBySorted | google_sheets_api.py:753 | No element of the sort's output is preceded by one that its key ranks after it. |
| Sorting.SortByStable | google_sheets_api.py:753 | For every key, the elements with that key leave the sort in the order they came in. |
| Sorting.InsertSorted | google_sheets_api.py:753 | Inserting into a sorted list keeps it sorted. |
| Sorting.InsertStable | google_sheets_api.py:753 | Inserting an element puts it after every element tied with it. |
| Sorting.SortedPrefix | google_sheets_api.py:757 | The first `m` elements of the sorted list are in order, come from the input, and none of the elements left out ranks before one of them. |
| Sorting.PermutationUnique | google_sheets_api.py:753 | Reordering keeps keys unique. |
| Sheet.Str | google_sheets_api.py:30 | `str()` of a text cell is its text. |
| Dates.ParseInvoiceDate | google_sheets_api.py:23-57 | A key it returns has at least ten characters, with a `-` after the four-character year. |
| Dates.DatePart | google_sheets_api.py:32-36 | Defines the date part: the text before the first space, or the whole text when it has no space. |
| Dates.ParseDatePart | google_sheets_api.py:39-57 | Gives `None` unless the date part splits into exactly three `/`-fields. A key it returns has the shape above. |
| Dates.ParseFields | google_sheets_api.py:44-57 | Checks the padded fields. A key it returns has the shape above, and any exception from `int()` ends in `None`. |
| Dates.AcceptedDate | google_sheets_api.py:23-57 | Every key returned comes from a value that is truthy and whose date part has exactly three `/`-fields. The year field has at most four characters, and `int()` accepts the padded month (at most 12) and day (at most 31). The key is the padded year, month and day. |
| Dates.PlainFieldsDate | google_sheets_api.py:23-57 | For any fields free of `/` and whitespace, `D/M/Y` gives the padded key exactly when the year has at most four characters and `int()` accepts the month and the day within their bounds, and `None` otherwise. |
| Dates.NonIntegerField | google_sheets_api.py:50-57 | A month or a day that `int()` rejects gives `None`, because the exception is caught. |
| Dates.WrongFieldCount | google_sheets_api.py:39-41 | A value without whitespace that does not split into exactly three `/`-fields gives `None`. |
| Dates.PaddedDate | google_sheets_api.py:23-57 | A padded `DD/MM/YYYY` with month at most 12 and day at most 31 becomes `YYYY-MM-DD`. |
| Dates.DigitDate | google_sheets_api.py:23-57 | Any all-digit day and month, with a year free of separators and whitespace, is accepted exactly when the padded fields pass the bounds checks. |
| Dates.DateWithTime | google_sheets_api.py:33-34 | A time of day after the first space does not change the result. |
| Dates.EmptyRejected | google_sheets_api.py:26-27 | An empty cell, and the number 0, give `None`. |
| Dates.ZeroDayAccepted | google_sheets_api.py:50-53 | Only upper bounds are checked: `0/0/2024` becomes `2024-00-00`. |
| Dates.BoundsRejected | google_sheets_api.py:50-51 | Month 13, day 32 and a five-digit year give `None`. |
| Dates.KeyOrderByFields | google_sheets_api.py:55 | Keys with equal-length year and month fields compare by year, then month, then day. |
| Dates.KeyOrderIsChronological | google_sheets_api.py:55 | For canonical dates, string order on the keys is chronological order. |
| Amounts.SafeParseAmount | google_sheets_api.py:59-77 | A falsy cell (`''`, `0`) reads as 0. |
| Amounts.Cleaned | google_sheets_api.py:69 | Defines the cleaning step: `đ`, `,` and `.` are deleted, in that order. |
| Amounts.UnparsableAmount | google_sheets_api.py:71-77 | Any text whose cleaned form cannot be read as a number reads as 0. |
| Amounts.TrailingSymbol | google_sheets_api.py:71-77 | Digits followed by any character other than a digit, whitespace, `đ`, `,` or `.` read as 0. For example, `12a` is 0. |
| Amounts.WholeNumbers | google_sheets_api.py:59-77 | A whole-number cell, and the text `str(n)` of any integer, read as that integer. |
| Amounts.FormattedAmount | google_sheets_api.py:59-77 | A total written as `f"{n:,} đ"` reads back as `n`. |
| Amounts.GroupedAmount | google_sheets_api.py:59-77 | Digits and commas followed by ` đ` read as the number the digits alone spell. |
| Amounts.PointsRunTogether | google_sheets_api.py:69 | `.` is deleted rather than read as a decimal point, so `12.5` reads as 125. |
| Amounts.NoDigitsGiveZero | google_sheets_api.py:76-77 | Text without a digit reads as 0, since every failure is caught. |
| Amounts.AmountOf | google_sheets_api.py:59-77 | Stripped text whose cleaned form parses as an integer reads as that integer. |
| Amounts.CleanedConcat | google_sheets_api.py:69 | Removing `đ`, `,` and `.` works piecewise over a concatenation. |
| Amounts.EmptyAmounts | google_sheets_api.py:61-62 | The empty text and the number 0 read as 0. |
| DateFilter.FilterByDate | google_sheets_api.py:79-102 | Defines the filter: with both bounds, the invoices whose parsed date lies between them inclusively. Otherwise it is every invoice. |
| DateFilter.FilterInvoicesByDate | google_sheets_api.py:79-102 | The loop returns exactly the filter's result. Without both bounds it returns the input unchanged. The result is always a subsequence of the input. |
| DateFilter.FilterMembers | google_sheets_api.py:88-99 | With both bounds, an invoice is kept exactly when its date parses to a key between the bounds, and it is kept as often as it occurs. |
| DateFilter.UnparsableDropped | google_sheets_api.py:92-94 | With both bounds, an invoice whose date does not parse is dropped. |
| DateFilter.KeepFirstOfTwo | google_sheets_api.py:97-98 | Of two invoices, one in range and one out of range, only the first is kept. |
| DateFilter.JanuaryExample | google_sheets_api.py:79-102 | Between `2024-01-01` and `2024-01-31`, an invoice of 15/01/2024 is kept and one of 05/02/2024 is dropped. |
| Dashboard.NamesInPeriod | google_sheets_api.py:674-680 | Defines the set of stripped non-empty names, or `None` when a `.strip()` raises. |
| Dashboard.AddName | google_sheets_api.py:676-678 | Adding a name fails exactly when the name cell is a number, on which `.strip()` raises. |
| Dashboard.CollectNames | google_sheets_api.py:674-680 | The name loop computes `NamesInPeriod`. |
| Dashboard.NamesCollected | google_sheets_api.py:674-680 | A name is in the set exactly when it is non-empty and is the stripped `Tên Khách` of some invoice. |
| Dashboard.NamesFail | google_sheets_api.py:674-680 | The loop succeeds exactly when every name cell is text. |
| Dashboard.NumberNameSticks | google_sheets_api.py:676 | Once a numeric name has raised, every longer prefix raises too. |
| Dashboard.DashboardSummary | google_sheets_api.py:664-690 | Defines the figures of the summary over the filtered invoices, or `None` when the name loop raises. |
| Dashboard.GetDashboardStats | google_sheets_api.py:648-715 | The method always fails. An unreadable customer table gives `Không thể lấy dữ liệu từ Google Sheets`. When the figures can be computed, the message is the `NameError` for `customer_codes_in_period`. Otherwise it is the error from `.strip()` on a numeric name. |
| Dashboard.PaymentSplit | google_sheets_api.py:685-689 | Cash plus transfer plus the revenue of other payment methods is the total revenue, and the customers' spending equals the total revenue. |
| Dashboard.RevenueSplit | google_sheets_api.py:685-686 | The revenue by cash, by transfer and by other methods adds up to the total. |
| Dashboard.SummaryCounts | google_sheets_api.py:671-690 | The invoice count is that of the filtered invoices and the product count is the catalogue size. The average is revenue over customers, or 0 without customers. |
| Dashboard.EmptyPeriod | google_sheets_api.py:671-690 | With no invoices in range, every figure is 0 except the product count. |
| Dashboard.MarchExample | google_sheets_api.py:671-690 | Two March invoices of 100,000 (cash) and 50,000 (transfer) give revenue 150,000 over two invoices, split 100,000 and 50,000. |
| Products.ReadItem | google_sheets_api.py:735-738 | Reading a line item succeeds exactly when it is a JSON object whose quantity `int()` accepts. |
| Products.ReadItems | google_sheets_api.py:735-750 | Defines the sales of one invoice: its items, read until the first one that raises. |
| Products.ProductTotals | google_sheets_api.py:730-751 | Defines the dictionary of totals per product name over the kept invoices. |
| Products.TopTen | google_sheets_api.py:753-757 | Defines the cut: the stable sort by descending revenue, then its first ten. |
| Products.ProductRanking | google_sheets_api.py:727-757 | Defines the ranking: the top ten of the totals of the filtered invoices. |
| Products.GetProductStats | google_sheets_api.py:717-757 | The method returns the ranking `ProductRanking` specifies. |
| Products.AccumulateSales | google_sheets_api.py:731-751 | The loop builds the dictionary of all sales of the kept invoices. |
| Products.AddItems | google_sheets_api.py:735-750 | The inner loop adds the items of one invoice until the first that raises. |
| Products.PartialInvoice | google_sheets_api.py:735-751 | Items after the first one that raises are not counted, and those before it stay counted. |
| Products.UndecodedInvoice | google_sheets_api.py:734-751 | An invoice whose item list does not decode contributes nothing. |
| Products.TotalsAreSums | google_sheets_api.py:741-751 | Each product's quantity and revenue are the sums over its line items in the kept invoices. |
| Products.TotalsNames | google_sheets_api.py:741-751 | The products appear in order of first sale, each name once. |
| Products.RankingOrder | google_sheets_api.py:753-757 | The ranking has exactly ten products, or all of them when there are fewer. They come by non-increasing revenue, with distinct names, all drawn from the totals, and none left out earned more than one kept. |
| Products.TopTenOrder | google_sheets_api.py:753-757 | The same properties, including the length of ten or fewer, for the top ten of any list of products with distinct names. |
| Products.RankingTies | google_sheets_api.py:753 | Products with equal revenue stay in order of first sale. |
| Products.CoffeeExample | google_sheets_api.py:717-757 | Two invoices each selling 2 Coffee for 40,000 rank Coffee with quantity 4 and revenue 80,000. |
| Customers.RowsToRecords | google_sheets_api.py:194-204 | Defines the loop over the data rows: empty rows fail with `IndexError`, rows with an empty first cell are skipped, and the others become records. |
| Customers.CustomerRecords | google_sheets_api.py:187-206 | Defines `get_customers`: no records for a table with at most a header, otherwise the records of the data rows. |
| Customers.BuildRecord | google_sheets_api.py:198-202 | The inner loop builds the record `RecordOf` specifies. |
| Customers.RecordKeys | google_sheets_api.py:198-202 | The record's keys are exactly the headers. |
| Customers.RecordField | google_sheets_api.py:198-202 | Under the last occurrence of a header the record holds that column's cell, or `''` past the row's end. |
| Customers.GetCustomers | google_sheets_api.py:181-208 | The method returns the result `CustomerRecords` specifies. |
| Customers.CustomersListed | google_sheets_api.py:187-206 | Reading fails exactly when a data row is empty (`row[0]` raises). Otherwise there is one record per row with a non-empty first cell, in order. A table with at most a header gives no records. |
| Customers.RowsFail | google_sheets_api.py:194-195 | The loop fails exactly when some row is empty, and then with an `IndexError`. |
| Customers.JoinCode | google_sheets_api.py:220 | Defines the code from the cleaned name and the phone: their four-character prefix and suffix, or `KH` and the padded count. |
| Customers.CustomerCode | google_sheets_api.py:216-220 | Defines the code as written: the name without spaces and the stripped phone, joined by `JoinCode`. |
| Customers.NamedCode | google_sheets_api.py:216-220 | With a name and a phone, the code is at most eight characters. It is the first four characters of the space-free name, then the last four of the phone, each whole when shorter. |
| Customers.FallbackCode | google_sheets_api.py:220 | Without a name or a phone, the code is `KH` followed by the record count plus one, zero-padded to four digits. |
| Customers.SpacedPhoneCode | google_sheets_api.py:217-220 | A space among the last four characters of the stripped phone ends up in the code. |
| Customers.IntendedCodeNoSpace | google_sheets_api.py:218 | The code derived with spaces removed from the phone as well never contains a space. |
| Customers.IntendedAgrees | google_sheets_api.py:217-220 | For a phone without spaces, the intended code and the code as written agree. |
| CustomerStats.StatOf | google_sheets_api.py:780-786 | Defines one customer's entry: code, name, the total of their kept invoices and how many there are. |
| CustomerStats.CustomerStatsReport | google_sheets_api.py:765-802 | Defines the report: a failure when the customer table cannot be read, otherwise the stable ranking by descending total. |
| CustomerStats.GetCustomerStats | google_sheets_api.py:762-805 | The method returns the report `CustomerStatsReport` specifies. |
| CustomerStats.CollectStats | google_sheets_api.py:780-795 | The loop collects the entries of the customers with at least one invoice, in sheet order. |
| CustomerStats.RankingEntries | google_sheets_api.py:780-798 | An entry is ranked exactly when some customer has it and has at least one invoice. The ranking is a permutation of the collected entries. |
| CustomerStats.EntryTotals | google_sheets_api.py:784-786 | Each ranked total is the sum of the parsed totals of that customer's kept invoices, and the count is their positive number. |
| CustomerStats.AbsentWithoutInvoices | google_sheets_api.py:789 | A customer code without a kept invoice does not appear. |
| CustomerStats.CachedTotalIgnored | google_sheets_api.py:783-785 | Changing a customer's cached `Tổng Chi Tiêu` does not change the ranking. |
| CustomerStats.RankingOrder | google_sheets_api.py:798 | Totals do not increase along the ranking, and customers with equal totals stay in sheet order. |
| CustomerStats.ReportFails | google_sheets_api.py:766-769 | The report fails exactly when the customer table cannot be read, with the source's message. |
| Revenue.PeriodKey | google_sheets_api.py:822-838 | Defines the period key of an invoice date, or `None` where the loop skips the invoice or raises. |
| Revenue.RevenueSeries | google_sheets_api.py:817-851 | Defines the series: the totals per key of the filtered invoices, sorted by key. |
| Revenue.GetRevenueStats | google_sheets_api.py:807-858 | The method returns the series `RevenueSeries` specifies. |
| Revenue.AccumulatePeriods | google_sheets_api.py:819-849 | The loop builds the dictionary of totals per period key. |
| Revenue.AddRevenue | google_sheets_api.py:844-847 | One step adds the revenue to the key's entry or appends a new entry. |
| Revenue.SeriesSums | google_sheets_api.py:819-851 | A row is in the series exactly when some kept invoice has that period key and the revenue is the sum over those invoices. |
| Revenue.SeriesAscending | google_sheets_api.py:851 | Period keys strictly increase in string order along the series. |
| Revenue.SkippedInvoice | google_sheets_api.py:821-849 | An invoice the loop skips (no date, or a date that raises) contributes nothing. |
| Revenue.UnknownPeriod | google_sheets_api.py:829-838 | A period other than day, week or month gives an empty series, because `key` is never bound. |
| Revenue.WeekInMonth | google_sheets_api.py:833-836 | The week key is `Tuần w/month/year` with `w = (day - 1) // 7 + 1`, between 1 and 5 for a day from 1 to 31. |
| Revenue.RawKeys | google_sheets_api.py:831-838 | Day and month keys use the raw fields, unpadded. |
| Revenue.UnpaddedDays | google_sheets_api.py:831-832 | `5/3/2024` and `05/03/2024` are different day keys. |
| Ledger.LastIndex | google_sheets_api.py:585 | The index found is the last column with that header, and there is none when no column has it. |
| Ledger.StoredPhone | google_sheets_api.py:594 | Defines the stored phone as compared: `str()` of the cell without spaces and `'`, or `''` for a falsy cell. |
| Ledger.CurrentSpent | google_sheets_api.py:597-604 | Defines the current total. A number counts as is. A text counts when it is a digit string once every ` đ` and `,` is deleted, and as 0 otherwise. A missing column counts as 0. |
| Ledger.PaidAmount | google_sheets_api.py:606-608 | Defines the amount: a number as is, and a text through `isdigit()`. |
| Ledger.ApplyPayment | google_sheets_api.py:589-616 | Defines the rows after the update: the first matching row gets the new total in column 6, and no match leaves the rows alone. |
| Ledger.SetCell | google_sheets_api.py:612 | Writing cell `c` sets it. Every other cell is kept, and a short row is padded with empty cells. |
| Ledger.CustomerSheet.UpdateCustomerSpent | google_sheets_api.py:580-618 | The header is unchanged, and the rows become `ApplyPayment` of the old rows. |
| Ledger.NoMatchUnchanged | google_sheets_api.py:615-616 | Without a matching phone nothing is written. |
| Ledger.PaymentTouchesOneCell | google_sheets_api.py:589-613 | Only the first matching row changes, and in it only column 6. That cell receives `f"{old + amount:,} đ"`, and padding cells are empty. |
| Ledger.PaymentRecorded | google_sheets_api.py:597-612 | When `Tổng Chi Tiêu` is the sixth column, the total read back after the write is the old total plus the amount. |
| Ledger.TwoPayments | google_sheets_api.py:580-618 | Under the same layout, two payments add up. |
| Ledger.TotalElsewhere | google_sheets_api.py:612 | When `Tổng Chi Tiêu` sits in any other column, the total read back does not change. |
| Ledger.SpentRoundTrip | google_sheets_api.py:602-612 | A non-negative total written as `f"{n:,} đ"` reads back as `n`. |
| Ledger.NegativeReadsZero | google_sheets_api.py:602-604 | A negative total is written with a minus sign, which `isdigit()` rejects, so it reads back as 0. |
| Ledger.LookupAfterSet | google_sheets_api.py:599 | After a write, a header's value is the written cell when that header's last column is the one written, and is unchanged otherwise. |
| Ledger.NoMatch | google_sheets_api.py:589-617 | No matching row means no match is found. |

## Left out

- Google Sheets I/O, the connection, `ensure_sheets_exist` and the migration helpers are left out. Tables are inputs and outputs of the model.
- The create, update and delete writers other than `update_customer_spent` are left out, as are `save_invoice` and `update_stats`.
- The HTTP layer, printing, and `debug_mode` with `debug_info` are left out.
- Concurrent edits of the sheet are left out.
- The failure branches of `get_invoices` and `get_products` (:444-451, :435-442) are left out. They only report an unreadable sheet, and the invoice table is an input here.
- Amounts.SafeParseAmount: floating point is not modelled. Amounts are whole numbers, and texts that `float()` accepts but `int()` does not read as 0. Those texts are exponents, `inf`, `nan` and fractions.
- Text.ParseInteger: only ASCII digits are digits, and underscores between digits are rejected. Python's `int()` and `isdigit()` also accept other Unicode digits, and `int()` accepts `1_000`. So `Dates.ParseInvoiceDate` gives `None` for `05/1_2/2024`, which the source turns into `2024-1_2-05`. `Amounts.SafeParseAmount` reads `1_000` as 0 where `float()` gives 1000.
- Products.ReadItem: `json.loads` of `Chi Tiết SP (JSON)` is not modelled. An invoice carries its decoded item list, or `None` when decoding fails or gives something other than a list. `int(quantity)` is given as its outcome. A product name is always text. A numeric or null `name` in the JSON, and a list `name` (which raises at `name in product_stats`), are not modelled.
- Dashboard.GetDashboardStats: the failure of `get_invoices` or `get_products` (:652-653) is not modelled. The failure of `get_customers` is. The number of catalogue products is a parameter, because `get_products` reads the sheet. The `date_range` echo is not part of `Stats`.
- Customers.CustomerCode: the number of existing records, `len(worksheet.get_all_records())`, is a parameter.
- The registration-date handling of `create_customer` (:222-235) is left out. It reads the clock, and only the code derivation is modelled.
- Date bounds are strings. `None` and `''` are both modelled as `""`, since the source treats both as falsy.
- Ledger.CustomerSheet.UpdateCustomerSpent: the exception path (sheet missing, write failure) and the log lines are left out.
- Ledger.CustomerSheet.UpdateCustomerSpent: a header row with duplicate names, which the sheet client rejects, is modelled as the last column winning.
- Ledger.PaymentRecorded: the write always goes to column 6, as at :612 and in the row layout of :237-243. The header row that :153 creates puts `Tổng Chi Tiêu` in column 7. With that header, `Ledger.TotalElsewhere` shows the cached total never grows.
- Ledger.PaidAmount: a float `amount` is not modelled. A text amount that `isdigit()` rejects counts as 0.

## Findings

| source | as written | input that shows it | evidently intended | confidence | as-written member | corrected member |
|---|---|---|---|---|---|---|
| google_sheets_api.py:692 | After computing the dashboard figures, the method reads `customer_codes_in_period`, a name defined nowhere. The `NameError` is caught at :714-715, so every call returns a failure. | Any readable sheets, for example an empty invoice table | Return the figures of :671-690 (`Dashboard.DashboardSummary`, whose properties `Dashboard.SummaryCounts` and `Dashboard.PaymentSplit` prove) | high; not executed | Dashboard.GetDashboardStats | Dashboard.SummaryCounts |
| google_sheets_api.py:217-220 | Only the name loses its spaces, so a phone with spaces among its last four characters puts a space in the code, against the comment at :218. | name `Lan`, phone `0909 123 456`, giving `Lan 456` | Remove the spaces from the phone too, giving `Lan3456`; `Customers.IntendedCodeNoSpace` proves the code then has no space | high; not executed | Customers.SpacedPhoneCode | Customers.IntendedCodeNoSpace |
