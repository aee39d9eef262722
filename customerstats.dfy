/** The customer ranking of `get_customer_stats`: for every customer record
    in sheet order, the invoices the date filter keeps whose `Mã KH` is
    exactly the customer's code are counted and their totals added up; the
    customers with at least one such invoice are then sorted by what they
    spent, highest first (a stable sort). The cached `Tổng Chi Tiêu` column
    of the customer sheet plays no part. */
module CustomerStats {
  import opened Wrappers
  import opened Sheet
  import opened Amounts
  import opened Seqs
  import opened Sorting
  import opened DateFilter
  import opened Customers

  /** One entry of the result: `{'code', 'name', 'total_spent',
      'invoice_count'}`. */
  datatype CustomerStat = CustomerStat(code: string, name: string, totalSpent: int, invoiceCount: nat)

  /** The message returned when the customer table cannot be read. */
  const NoData: string := "Không thể lấy dữ liệu"

  /** `inv.get('Mã KH') == customer_code`: the invoice's cell holds the same
      string. A cell the sheet client read as a number never equals a
      string. */
  predicate BelongsTo(inv: Invoice, code: string) {
    inv.customerCode == Text(code)
  }

  /** `[inv for inv in invoice_data if inv.get('Mã KH') == customer_code]`. */
  function InvoicesOf(invs: seq<Invoice>, code: string): seq<Invoice> {
    Filter(invs, (inv: Invoice) => BelongsTo(inv, code))
  }

  /** The entry one customer record would contribute. */
  function StatOf(rec: Record, invs: seq<Invoice>): CustomerStat {
    var code := Get(rec, "Mã KH");
    var mine := InvoicesOf(invs, code);
    CustomerStat(code, Get(rec, "Tên Khách Hàng"), Sum(mine, Amount), |mine|)
  }

  /** The entry of every customer record, in sheet order. */
  function StatsOfAll(customers: seq<Record>, invs: seq<Invoice>): (r: seq<CustomerStat>)
    ensures |r| == |customers|
    ensures forall i :: 0 <= i < |customers| ==> r[i] == StatOf(customers[i], invs)
  {
    if customers == [] then []
    else StatsOfAll(customers[..|customers| - 1], invs) + [StatOf(customers[|customers| - 1], invs)]
  }

  /** `if invoice_count > 0`. */
  predicate HasInvoices(s: CustomerStat) {
    s.invoiceCount > 0
  }

  /** The list `customer_stats` after the loop. */
  function Collected(customers: seq<Record>, invs: seq<Invoice>): seq<CustomerStat> {
    Filter(StatsOfAll(customers, invs), HasInvoices)
  }

  /** The sort key, `reverse=True`: higher spending comes first. */
  predicate BySpent(a: CustomerStat, b: CustomerStat) {
    a.totalSpent > b.totalSpent
  }

  /** The ranking over already-read customer records. */
  function CustomerRanking(customers: seq<Record>, invoices: seq<Invoice>, dateFrom: string, dateTo: string): seq<CustomerStat> {
    SortBy(Collected(customers, FilterByDate(invoices, dateFrom, dateTo)), BySpent)
  }

  /** What `get_customer_stats` returns: a failure when the customer table
      cannot be read, the ranking otherwise. */
  function CustomerStatsReport(values: seq<seq<string>>, invoices: seq<Invoice>, dateFrom: string, dateTo: string): Result<seq<CustomerStat>> {
    match CustomerRecords(values)
    case Failure(_) => Failure(NoData)
    case Success(customers) => Success(CustomerRanking(customers, invoices, dateFrom, dateTo))
  }

  /** `get_customer_stats(date_from, date_to)` on the values of the customer
      sheet and the invoice table. */
  method GetCustomerStats(values: seq<seq<string>>, invoices: seq<Invoice>, dateFrom: string, dateTo: string)
    returns (r: Result<seq<CustomerStat>>)
    ensures r == CustomerStatsReport(values, invoices, dateFrom, dateTo)
  {
    var customers := GetCustomers(values);
    if customers.Failure? {
      return Failure(NoData);
    }
    var invs := FilterInvoicesByDate(invoices, dateFrom, dateTo);
    var stats := CollectStats(customers.value, invs);
    r := Success(SortBy(stats, BySpent));
  }

  /** The loop over the customers that appends to `customer_stats`. */
  method CollectStats(customers: seq<Record>, invs: seq<Invoice>) returns (stats: seq<CustomerStat>)
    ensures stats == Collected(customers, invs)
  {
    stats := [];
    var i := 0;
    while i < |customers|
      invariant 0 <= i <= |customers|
      invariant stats == Filter(StatsOfAll(customers[..i], invs), HasInvoices)
    {
      var customer := customers[i];
      var code := Get(customer, "Mã KH");
      var name := Get(customer, "Tên Khách Hàng");
      var mine := InvoicesOf(invs, code);
      var totalSpent := Sum(mine, Amount);
      var invoiceCount := |mine|;
      StatsStep(customers, i, invs);
      if invoiceCount > 0 {
        stats := stats + [CustomerStat(code, name, totalSpent, invoiceCount)];
      }
      i := i + 1;
    }
    assert customers[..i] == customers;
  }

  /** One more customer through the loop. */
  lemma {:induction false} StatsStep(customers: seq<Record>, i: nat, invs: seq<Invoice>)
    requires i < |customers|
    ensures Filter(StatsOfAll(customers[..i + 1], invs), HasInvoices)
         == Filter(StatsOfAll(customers[..i], invs), HasInvoices)
            + (if HasInvoices(StatOf(customers[i], invs)) then [StatOf(customers[i], invs)] else [])
  {
    assert StatsOfAll(customers[..i + 1], invs) == StatsOfAll(customers[..i], invs) + [StatOf(customers[i], invs)];
  }

  lemma BySpentOrder()
    ensures StrictWeakOrder(BySpent)
  {
  }

  /** The ranking holds exactly the entries of the customers with at least
      one invoice in range, each as often as such a customer occurs: an
      entry's code is the customer's `Mã KH`, its name the customer's
      `Tên Khách Hàng`, its total the sum of the parsed totals of the
      invoices in range carrying exactly that code, and its count their
      number. */
  lemma {:induction false} RankingEntries(customers: seq<Record>, invoices: seq<Invoice>, dateFrom: string, dateTo: string, x: CustomerStat)
    ensures var invs := FilterByDate(invoices, dateFrom, dateTo);
      x in CustomerRanking(customers, invoices, dateFrom, dateTo)
      <==> x.invoiceCount > 0 && exists i :: 0 <= i < |customers| && StatOf(customers[i], invs) == x
    ensures multiset(CustomerRanking(customers, invoices, dateFrom, dateTo))
         == multiset(Collected(customers, FilterByDate(invoices, dateFrom, dateTo)))
  {
    var invs := FilterByDate(invoices, dateFrom, dateTo);
    var all := StatsOfAll(customers, invs);
    var collected := Collected(customers, invs);
    SortByPermutation(collected, BySpent);
    Seqs.FilterMembers(all, HasInvoices, x);
    assert x in CustomerRanking(customers, invoices, dateFrom, dateTo) <==> x in multiset(collected);
    if exists i :: 0 <= i < |customers| && StatOf(customers[i], invs) == x {
      var i :| 0 <= i < |customers| && StatOf(customers[i], invs) == x;
      assert all[i] == x;
    }
  }

  /** Each entry's total and count are the sum and the number of the
      invoices in range whose `Mã KH` is its code, and the count is
      positive. */
  lemma {:induction false} EntryTotals(customers: seq<Record>, invoices: seq<Invoice>, dateFrom: string, dateTo: string, x: CustomerStat)
    requires x in CustomerRanking(customers, invoices, dateFrom, dateTo)
    ensures var mine := InvoicesOf(FilterByDate(invoices, dateFrom, dateTo), x.code);
      x.totalSpent == Sum(mine, Amount) && x.invoiceCount == |mine| > 0
  {
    RankingEntries(customers, invoices, dateFrom, dateTo, x);
  }

  /** A code that no invoice in range carries has no entry, whatever the
      customer's cached total says. */
  lemma {:induction false} AbsentWithoutInvoices(customers: seq<Record>, invoices: seq<Invoice>, dateFrom: string, dateTo: string, code: string)
    requires forall inv :: inv in FilterByDate(invoices, dateFrom, dateTo) ==> !BelongsTo(inv, code)
    ensures forall x :: x in CustomerRanking(customers, invoices, dateFrom, dateTo) ==> x.code != code
  {
    var invs := FilterByDate(invoices, dateFrom, dateTo);
    forall x | x in CustomerRanking(customers, invoices, dateFrom, dateTo) ensures x.code != code {
      EntryTotals(customers, invoices, dateFrom, dateTo, x);
      if x.code == code {
        var mine := InvoicesOf(invs, code);
        FilterAll(invs, (inv: Invoice) => BelongsTo(inv, code));
        Seqs.FilterMembers(invs, (inv: Invoice) => BelongsTo(inv, code), mine[0]);
        assert false;
      }
    }
  }

  /** The cached `Tổng Chi Tiêu` of a customer does not change the
      ranking. */
  lemma {:induction false} CachedTotalIgnored(customers: seq<Record>, i: nat, v: string, invoices: seq<Invoice>, dateFrom: string, dateTo: string)
    requires i < |customers|
    ensures CustomerRanking(customers[i := customers[i]["Tổng Chi Tiêu" := v]], invoices, dateFrom, dateTo)
         == CustomerRanking(customers, invoices, dateFrom, dateTo)
  {
    var invs := FilterByDate(invoices, dateFrom, dateTo);
    var edited := customers[i := customers[i]["Tổng Chi Tiêu" := v]];
    assert StatOf(edited[i], invs) == StatOf(customers[i], invs) by {
      assert Get(edited[i], "Mã KH") == Get(customers[i], "Mã KH");
      assert Get(edited[i], "Tên Khách Hàng") == Get(customers[i], "Tên Khách Hàng");
    }
    assert StatsOfAll(edited, invs) == StatsOfAll(customers, invs);
  }

  /** The ranking is in non-increasing order of `total_spent`, and
      customers who spent the same keep their sheet order. */
  lemma {:induction false} RankingOrder(customers: seq<Record>, invoices: seq<Invoice>, dateFrom: string, dateTo: string, v: CustomerStat)
    ensures var r := CustomerRanking(customers, invoices, dateFrom, dateTo);
      forall i, j :: 0 <= i < j < |r| ==> r[i].totalSpent >= r[j].totalSpent
    ensures Filter(CustomerRanking(customers, invoices, dateFrom, dateTo), y => Tied(BySpent, y, v))
         == Filter(Collected(customers, FilterByDate(invoices, dateFrom, dateTo)), y => Tied(BySpent, y, v))
  {
    var collected := Collected(customers, FilterByDate(invoices, dateFrom, dateTo));
    BySpentOrder();
    SortBySorted(collected, BySpent);
    SortByStable(collected, BySpent, v);
  }

  /** When the customer table cannot be read the report fails with its
      message; otherwise it succeeds. */
  lemma {:induction false} ReportFails(values: seq<seq<string>>, invoices: seq<Invoice>, dateFrom: string, dateTo: string)
    ensures CustomerStatsReport(values, invoices, dateFrom, dateTo).Failure?
        <==> exists i :: 1 <= i < |values| && values[i] == []
    ensures CustomerStatsReport(values, invoices, dateFrom, dateTo).Failure? ==>
      CustomerStatsReport(values, invoices, dateFrom, dateTo).message == NoData
  {
    CustomersListed(values);
  }
}
