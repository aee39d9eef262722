/** The revenue series of `get_revenue_stats`: the invoices the date filter
    keeps are grouped by a period key built from the raw day, month and
    year fields of their `Ngày Giờ` (so `5/3/2024` and `05/03/2024` are two
    different days), the parsed totals of each group are added up, and the
    groups are listed in ascending string order of their keys. */
module Revenue {
  import opened Wrappers
  import opened Text
  import opened Sheet
  import opened Amounts
  import opened Seqs
  import opened Tally
  import opened Sorting
  import opened DateFilter
  import Dates

  /** One entry of the result: `{'period', 'revenue'}`. */
  datatype PeriodRevenue = PeriodRevenue(period: string, revenue: int)

  /** The week of the month `(day - 1) // 7 + 1`; Python's floor division
      by a positive number is Dafny's `/`. */
  function WeekOfMonth(day: int): int {
    (day - 1) / 7 + 1
  }

  /** The key an invoice is grouped under, or `None` when the loop skips
      it: an empty date is skipped, a date the sheet client read as a
      number has no `split` and raises, a date part without exactly three
      `/`-fields raises when unpacked, `int(day)` may raise for a week, and
      any period other than `day`, `week` and `month` leaves `key` unbound,
      so that reading it raises. Every raise lands in the bare `except`,
      which moves on to the next invoice. */
  function PeriodKey(period: string, date: Cell): Option<string> {
    if !Truthy(date) then None
    else match date
      case Number(_) => None
      case Text(s) =>
        var fields := Split(Split(s, ' ')[0], '/');
        if |fields| != 3 then None
        else
          var day, month, year := fields[0], fields[1], fields[2];
          if period == "day" then Some(day + "/" + month + "/" + year)
          else if period == "week" then
            match ParseInteger(day)
            case None => None
            case Some(d) => Some("Tuần " + IntToString(WeekOfMonth(d)) + "/" + month + "/" + year)
          else if period == "month" then Some(month + "/" + year)
          else None
  }

  /** The key of an invoice, as a function of the invoice. */
  function KeyFn(period: string): Invoice -> Option<string> {
    (inv: Invoice) => PeriodKey(period, inv.date)
  }

  /** The keyed amounts of the invoices the loop does not skip, in
      order. */
  function Entries(period: string, invs: seq<Invoice>): seq<(string, int)> {
    Keyed(invs, KeyFn(period), Amount)
  }

  /** The dictionary `revenue_by_period` after the loop. */
  function Totals(period: string, invs: seq<Invoice>): seq<(string, int)> {
    AddAll([], Entries(period, invs), Plus)
  }

  /** `[{'period': k, 'revenue': v} for k, v in revenue_by_period.items()]`. */
  function RowsOf(acc: seq<(string, int)>): (r: seq<PeriodRevenue>)
    ensures |r| == |acc|
    ensures forall i :: 0 <= i < |acc| ==> r[i] == PeriodRevenue(acc[i].0, acc[i].1)
  {
    if acc == [] then [] else RowsOf(acc[..|acc| - 1]) + [PeriodRevenue(acc[|acc| - 1].0, acc[|acc| - 1].1)]
  }

  /** The sort key: the period string, ascending. */
  predicate ByPeriod(a: PeriodRevenue, b: PeriodRevenue) {
    LexLess(a.period, b.period)
  }

  /** What `get_revenue_stats(period, date_from, date_to)` returns as its
      data. */
  function RevenueSeries(invoices: seq<Invoice>, period: string, dateFrom: string, dateTo: string): seq<PeriodRevenue> {
    SortBy(RowsOf(Totals(period, FilterByDate(invoices, dateFrom, dateTo))), ByPeriod)
  }

  /** `get_revenue_stats(period, date_from, date_to)` on the invoice
      table. */
  method GetRevenueStats(invoices: seq<Invoice>, period: string, dateFrom: string, dateTo: string)
    returns (data: seq<PeriodRevenue>)
    ensures data == RevenueSeries(invoices, period, dateFrom, dateTo)
  {
    var invs := FilterInvoicesByDate(invoices, dateFrom, dateTo);
    var revenueByPeriod := AccumulatePeriods(invs, period);
    data := SortBy(RowsOf(revenueByPeriod), ByPeriod);
  }

  /** The loop over the invoices that fills `revenue_by_period`. */
  method AccumulatePeriods(invs: seq<Invoice>, period: string) returns (acc: seq<(string, int)>)
    ensures acc == Totals(period, invs)
  {
    acc := [];
    var i := 0;
    while i < |invs|
      invariant 0 <= i <= |invs|
      invariant acc == Totals(period, invs[..i])
    {
      var invoice := invs[i];
      KeyedAddStep(invs, i, KeyFn(period), Amount);
      var key := PeriodKey(period, invoice.date);
      assert KeyFn(period)(invoice) == key;
      if key.Some? {
        var revenue := Amount(invoice);
        acc := AddRevenue(acc, key.value, revenue);
      }
      i := i + 1;
    }
    assert invs[..i] == invs;
  }

  /** `revenue_by_period[key] += revenue` for a key already present,
      `revenue_by_period[key] = revenue` for a new one. */
  method AddRevenue(acc0: seq<(string, int)>, key: string, revenue: int) returns (acc: seq<(string, int)>)
    ensures acc == Add(acc0, (key, revenue), Plus)
  {
    match Find(acc0, key) {
      case Some(k) =>
        AddFound(acc0, (key, revenue), Plus, k);
        acc := acc0[k := (key, acc0[k].1 + revenue)];
      case None =>
        AddNew(acc0, (key, revenue), Plus);
        acc := acc0 + [(key, revenue)];
    }
  }

  /** An invoice the loop skips does not change the series, wherever it
      stands. */
  lemma {:induction false} SkippedInvoice(period: string, pre: seq<Invoice>, inv: Invoice, post: seq<Invoice>)
    requires PeriodKey(period, inv.date).None?
    ensures Totals(period, pre + [inv] + post) == Totals(period, pre + post)
  {
    KeyedSkip(pre, inv, post, KeyFn(period), Amount);
  }

  /** A period other than `day`, `week` and `month` gives an empty
      series. */
  lemma {:induction false} UnknownPeriod(invoices: seq<Invoice>, period: string, dateFrom: string, dateTo: string)
    requires period != "day" && period != "week" && period != "month"
    ensures RevenueSeries(invoices, period, dateFrom, dateTo) == []
  {
    NoEntries(period, FilterByDate(invoices, dateFrom, dateTo));
  }

  lemma {:induction false} NoEntries(period: string, invs: seq<Invoice>)
    requires period != "day" && period != "week" && period != "month"
    ensures Entries(period, invs) == []
  {
    KeyedNone(invs, KeyFn(period), Amount);
  }

  /** The invoices in `invs` grouped under `key`. */
  function InPeriod(period: string, invs: seq<Invoice>, key: string): seq<Invoice> {
    WithKey(invs, KeyFn(period), key)
  }

  lemma {:induction false} ByPeriodOrder()
    ensures StrictWeakOrder(ByPeriod)
  {
    forall a: PeriodRevenue ensures !ByPeriod(a, a) {
      LexLessIrreflexive(a.period);
    }
    forall a: PeriodRevenue, b: PeriodRevenue, c: PeriodRevenue | ByPeriod(a, b) && ByPeriod(b, c) ensures ByPeriod(a, c) {
      LexLessTransitive(a.period, b.period, c.period);
    }
    forall a: PeriodRevenue, b: PeriodRevenue, c: PeriodRevenue | ByPeriod(a, b) ensures ByPeriod(a, c) || ByPeriod(c, b) {
      LexLessTotal(b.period, c.period);
      if LexLess(b.period, c.period) {
        LexLessTransitive(a.period, b.period, c.period);
      }
    }
  }

  function Period(r: PeriodRevenue): string { r.period }

  /** The series lists each period once, in strictly ascending string
      order. */
  lemma {:induction false} SeriesAscending(invoices: seq<Invoice>, period: string, dateFrom: string, dateTo: string)
    ensures var r := RevenueSeries(invoices, period, dateFrom, dateTo);
      forall i, j :: 0 <= i < j < |r| ==> LexLess(r[i].period, r[j].period)
  {
    var invs := FilterByDate(invoices, dateFrom, dateTo);
    var rows := RowsOf(Totals(period, invs));
    var r := SortBy(rows, ByPeriod);
    AddAllHasKey(Entries(period, invs), Plus, []);
    assert UniqueBy(rows, Period) by {
      forall i, j | 0 <= i < j < |rows| ensures Period(rows[i]) != Period(rows[j]) {
        assert Keys(Totals(period, invs))[i] != Keys(Totals(period, invs))[j];
      }
    }
    SortByPermutation(rows, ByPeriod);
    PermutationUnique(rows, r, Period);
    ByPeriodOrder();
    SortBySorted(rows, ByPeriod);
    forall i, j | 0 <= i < j < |r| ensures LexLess(r[i].period, r[j].period) {
      assert Period(r[i]) != Period(r[j]);
      LexLessTotal(r[i].period, r[j].period);
    }
  }

  /** A period appears in the series exactly when some invoice in range is
      grouped under it, and its revenue is the sum of the parsed totals of
      those invoices. */
  lemma {:induction false} SeriesSums(invoices: seq<Invoice>, period: string, dateFrom: string, dateTo: string, x: PeriodRevenue)
    ensures var invs := FilterByDate(invoices, dateFrom, dateTo);
      x in RevenueSeries(invoices, period, dateFrom, dateTo)
      <==> (exists inv :: inv in invs && PeriodKey(period, inv.date) == Some(x.period))
           && x.revenue == Sum(InPeriod(period, invs, x.period), Amount)
  {
    var invs := FilterByDate(invoices, dateFrom, dateTo);
    var acc := Totals(period, invs);
    var rows := RowsOf(acc);
    var es := Entries(period, invs);
    SortByPermutation(rows, ByPeriod);
    assert x in RevenueSeries(invoices, period, dateFrom, dateTo) <==> x in rows by {
      assert x in RevenueSeries(invoices, period, dateFrom, dateTo) <==> x in multiset(rows);
    }
    KeyedKeys(invs, KeyFn(period), Amount, x.period);
    KeyedSum(invs, KeyFn(period), Amount, x.period);
    AddAllHasKey(es, Plus, x.period);
    if x in rows {
      var i :| 0 <= i < |rows| && rows[i] == x;
      AddAllSums(es, Plus, Id, i);
    }
    if x.period in Keys(es) && x.revenue == Sum(InPeriod(period, invs, x.period), Amount) {
      var i :| 0 <= i < |acc| && Keys(acc)[i] == x.period;
      AddAllSums(es, Plus, Id, i);
      assert rows[i] == x;
    }
  }

  /** For a day of the month the week number is between 1 and 5. */
  lemma {:induction false} WeekInMonth(period: string, date: Cell, d: int)
    requires period == "week" && date.Text?
    requires var fields := Split(Split(date.s, ' ')[0], '/');
      |fields| == 3 && ParseInteger(fields[0]) == Some(d) && 1 <= d <= 31
    ensures var fields := Split(Split(date.s, ' ')[0], '/');
      PeriodKey(period, date) == Some("Tuần " + IntToString(WeekOfMonth(d)) + "/" + fields[1] + "/" + fields[2])
      && 1 <= WeekOfMonth(d) <= 5
  {
  }

  /** A field of a timestamp: no `/` and no space inside. */
  predicate Field(s: string) {
    Lacks(s, '/') && Lacks(s, ' ')
  }

  /** The keys are the raw fields of the timestamp joined again, with no
      padding: `day` gives `d/m/y` and `month` gives `m/y`, whatever
      follows the first space. */
  lemma {:induction false} RawKeys(d: string, m: string, y: string, time: string)
    requires Field(d) && Field(m) && Field(y)
    ensures PeriodKey("day", Text(d + "/" + m + "/" + y + " " + time)) == Some(d + "/" + m + "/" + y)
    ensures PeriodKey("month", Text(d + "/" + m + "/" + y + " " + time)) == Some(m + "/" + y)
  {
    var date := d + "/" + m + "/" + y;
    var s := date + " " + time;
    assert Lacks(date, ' ') by {
      forall i | 0 <= i < |date| ensures date[i] != ' ' {
        if i < |d| {
          assert date[i] == d[i];
        } else if i == |d| {
        } else if i < |d| + 1 + |m| {
          assert date[i] == m[i - |d| - 1];
        } else if i == |d| + 1 + |m| {
        } else {
          assert date[i] == y[i - |d| - 2 - |m|];
        }
      }
    }
    assert s == date + [' '] + time;
    SplitAt(date, time, ' ');
    Dates.SplitDate(d, m, y);
    assert s[|date|] == ' ';
  }

  /** `5/3/2024` and `05/03/2024` are the same day, but two different
      periods of the series. */
  lemma {:induction false} UnpaddedDays()
    ensures PeriodKey("day", Text("5/3/2024 09:00")) == Some("5/3/2024")
    ensures PeriodKey("day", Text("05/03/2024 10:00")) == Some("05/03/2024")
  {
    DayFields();
    RawKeys("5", "3", "2024", "09:00");
    RawKeys("05", "03", "2024", "10:00");
    DaysSpelled();
  }

  lemma {:induction false} DayFields()
    ensures Field("5") && Field("3") && Field("05") && Field("03") && Field("2024")
  {
  }

  lemma {:induction false} DaysSpelled()
    ensures "5" + "/" + "3" + "/" + "2024" + " " + "09:00" == "5/3/2024 09:00"
    ensures "05" + "/" + "03" + "/" + "2024" + " " + "10:00" == "05/03/2024 10:00"
    ensures "5" + "/" + "3" + "/" + "2024" == "5/3/2024"
    ensures "05" + "/" + "03" + "/" + "2024" == "05/03/2024"
  {
  }
}
