/** The dashboard summary of `get_dashboard_stats`: revenue, invoice count,
    distinct customer names, catalogue size and the split by payment method,
    over the invoices the date filter keeps. As written the public method
    never returns these figures: after computing them it reads the undefined
    name `customer_codes_in_period`, and the resulting `NameError` is turned
    into a failure result. */
module Dashboard {
  import opened Wrappers
  import opened Text
  import opened Sheet
  import opened Dates
  import opened Amounts
  import opened Seqs
  import opened DateFilter
  import opened Customers

  /** The `data` dictionary the method would return. */
  datatype Stats = Stats(
    totalRevenue: int,
    totalInvoices: nat,
    totalCustomers: nat,
    totalProducts: nat,
    cashRevenue: int,
    transferRevenue: int,
    totalCustomerSpent: int,
    avgCustomerSpent: real)

  /** `sum(_safe_parse_amount(inv.get('Tổng Thanh Toán', 0)) for inv in invs)`. */
  function Revenue(invs: seq<Invoice>): int {
    Sum(invs, Amount)
  }

  /** The invoices whose `Hình Thức TT` is exactly the string `mode`. */
  function PaidBy(invs: seq<Invoice>, mode: string): seq<Invoice> {
    Filter(invs, (inv: Invoice) => inv.payment == Text(mode))
  }

  /** The invoices paid neither in cash nor by transfer. */
  function PaidOtherwise(invs: seq<Invoice>): seq<Invoice> {
    Filter(invs, (inv: Invoice) => inv.payment != Text("cash") && inv.payment != Text("transfer"))
  }

  /** `customer_names_in_period.add(name)` for one invoice's `Tên Khách`
      once stripped, skipped when empty; `None` when the cell is a number,
      on which `.strip()` raises. */
  function AddName(names: set<string>, c: Cell): (r: Option<set<string>>)
    ensures r.None? <==> c.Number?
  {
    match c
    case Number(_) => None
    case Text(s) => var name := Strip(s); Some(if name != [] then names + {name} else names)
  }

  /** The set `customer_names_in_period`, or `None` when the loop raises. */
  function NamesInPeriod(invs: seq<Invoice>): Option<set<string>> {
    if invs == [] then Some({})
    else
      match NamesInPeriod(invs[..|invs| - 1])
      case None => None
      case Some(names) => AddName(names, invs[|invs| - 1].customerName)
  }

  /** The loop at lines 674-678, which collects the stripped non-empty
      customer names into a set. */
  method CollectNames(invs: seq<Invoice>) returns (names: Option<set<string>>)
    ensures names == NamesInPeriod(invs)
  {
    var acc: set<string> := {};
    var i := 0;
    while i < |invs|
      invariant 0 <= i <= |invs|
      invariant NamesInPeriod(invs[..i]) == Some(acc)
    {
      NamesStep(invs, i);
      match invs[i].customerName {
        case Number(_) =>
          NumberNameSticks(invs, i + 1);
          return None;
        case Text(s) =>
          var name := Strip(s);
          if name != [] {
            acc := acc + {name};
          }
      }
      i := i + 1;
    }
    assert invs[..i] == invs;
    return Some(acc);
  }

  lemma {:induction false} NamesStep(invs: seq<Invoice>, i: nat)
    requires i < |invs|
    ensures NamesInPeriod(invs[..i + 1]) == match NamesInPeriod(invs[..i])
      case None => None
      case Some(names) => AddName(names, invs[i].customerName)
  {
    assert invs[..i + 1][..i] == invs[..i];
  }

  /** Once a numeric name has been met, no prefix that contains it yields
      a set. */
  lemma {:induction false} NumberNameSticks(invs: seq<Invoice>, k: nat)
    requires 0 < k <= |invs| && invs[k - 1].customerName.Number?
    ensures forall j :: k <= j <= |invs| ==> NamesInPeriod(invs[..j]) == None
  {
    forall j | k <= j <= |invs| ensures NamesInPeriod(invs[..j]) == None {
      NumberNamePrefix(invs, k, j);
    }
  }

  lemma {:induction false} NumberNamePrefix(invs: seq<Invoice>, k: nat, j: nat)
    requires 0 < k <= j <= |invs| && invs[k - 1].customerName.Number?
    ensures NamesInPeriod(invs[..j]) == None
    decreases j
  {
    assert invs[..j][..j - 1] == invs[..j - 1];
    if j > k {
      NumberNamePrefix(invs, k, j - 1);
    }
  }

  /** The name loop raises exactly when some `Tên Khách` is a number. */
  lemma {:induction false} NamesFail(invs: seq<Invoice>)
    ensures NamesInPeriod(invs).Some? <==> forall i :: 0 <= i < |invs| ==> invs[i].customerName.Text?
  {
    if exists k :: 0 <= k < |invs| && invs[k].customerName.Number? {
      var k :| 0 <= k < |invs| && invs[k].customerName.Number?;
      NumberNamePrefix(invs, k + 1, |invs|);
      assert invs[..|invs|] == invs;
    } else {
      TextNames(invs);
    }
  }

  lemma {:induction false} TextNames(invs: seq<Invoice>)
    requires forall i :: 0 <= i < |invs| ==> invs[i].customerName.Text?
    ensures NamesInPeriod(invs).Some?
  {
    if invs != [] {
      var init := invs[..|invs| - 1];
      assert forall i :: 0 <= i < |init| ==> init[i] == invs[i];
      TextNames(init);
    }
  }

  /** Invoice `i` carries the text name that strips to `n`. */
  predicate NameAt(invs: seq<Invoice>, i: int, n: string) {
    0 <= i < |invs| && invs[i].customerName.Text? && Strip(invs[i].customerName.s) == n
  }

  /** The names collected are exactly the non-empty stripped `Tên Khách`
      values. */
  lemma {:induction false} NamesCollected(invs: seq<Invoice>, n: string)
    requires NamesInPeriod(invs).Some?
    ensures n in NamesInPeriod(invs).value <==> n != [] && exists i :: NameAt(invs, i, n)
  {
    if n in NamesInPeriod(invs).value {
      CollectedNameOccurs(invs, n);
    }
    if n != [] && exists i :: NameAt(invs, i, n) {
      var i :| NameAt(invs, i, n);
      OccurringNameCollected(invs, n, i);
    }
  }

  lemma {:induction false} CollectedNameOccurs(invs: seq<Invoice>, n: string)
    requires NamesInPeriod(invs).Some? && n in NamesInPeriod(invs).value
    ensures n != [] && exists i :: NameAt(invs, i, n)
  {
    var init, last := invs[..|invs| - 1], invs[|invs| - 1];
    var names := NamesInPeriod(init).value;
    if n in names {
      CollectedNameOccurs(init, n);
      var i :| NameAt(init, i, n);
      assert NameAt(invs, i, n) by {
        assert invs[i] == init[i];
      }
    } else {
      assert NameAt(invs, |invs| - 1, n) by {
        assert NamesInPeriod(invs) == AddName(names, last.customerName);
      }
    }
  }

  lemma {:induction false} OccurringNameCollected(invs: seq<Invoice>, n: string, i: int)
    requires NamesInPeriod(invs).Some? && n != [] && NameAt(invs, i, n)
    ensures n in NamesInPeriod(invs).value
  {
    var k := |invs| - 1;
    var init := invs[..k];
    if i == k {
      NamesGrow(invs);
    } else {
      assert NameAt(init, i, n) by {
        assert init[i] == invs[i];
      }
      OccurringNameCollected(init, n, i);
      NamesGrow(invs);
    }
  }

  /** One more invoice keeps every name collected so far and adds its own
      stripped name when that is not empty. */
  lemma {:induction false} NamesGrow(invs: seq<Invoice>)
    requires invs != [] && NamesInPeriod(invs).Some?
    ensures var init, last := invs[..|invs| - 1], invs[|invs| - 1];
      && NamesInPeriod(init).Some?
      && NamesInPeriod(init).value <= NamesInPeriod(invs).value
      && (last.customerName.Text? && Strip(last.customerName.s) != [] ==>
            Strip(last.customerName.s) in NamesInPeriod(invs).value)
  {
  }


  /** The figures computed at lines 664-690, or `None` when the name loop
      raises. */
  function DashboardSummary(invoices: seq<Invoice>, productCount: nat, dateFrom: string, dateTo: string): Option<Stats> {
    var invs := FilterByDate(invoices, dateFrom, dateTo);
    match NamesInPeriod(invs)
    case None => None
    case Some(names) =>
      var total := Revenue(invs);
      var customers := |names|;
      Some(Stats(
        totalRevenue := total,
        totalInvoices := |invs|,
        totalCustomers := customers,
        totalProducts := productCount,
        cashRevenue := Revenue(PaidBy(invs, "cash")),
        transferRevenue := Revenue(PaidBy(invs, "transfer")),
        totalCustomerSpent := total,
        avgCustomerSpent := if customers > 0 then total as real / customers as real else 0.0))
  }

  /** The message of the failure result when one of the sheets cannot be
      read. */
  const SheetsUnavailable: string := "Không thể lấy dữ liệu từ Google Sheets"

  /** `get_dashboard_stats` as written, on the invoice table, the customer
      table `values` (read through `get_customers`, whose records the method
      then leaves unused) and the catalogue size: every call ends in a
      failure result. An unreadable customer table gives the message of
      lines 652-653. Otherwise the message is that of the exception: the
      `.strip()` of a numeric name when there is one in range, else the
      `NameError` of line 692. */
  function GetDashboardStats(invoices: seq<Invoice>, values: seq<seq<string>>, productCount: nat, dateFrom: string, dateTo: string): (r: Result<Stats>)
    ensures r.Failure?
    ensures CustomerRecords(values).Failure? ==> r.message == SheetsUnavailable
    ensures CustomerRecords(values).Success? && DashboardSummary(invoices, productCount, dateFrom, dateTo).Some?
        ==> r.message == "name 'customer_codes_in_period' is not defined"
    ensures CustomerRecords(values).Success? && DashboardSummary(invoices, productCount, dateFrom, dateTo).None?
        ==> r.message == "'int' object has no attribute 'strip'"
  {
    if CustomerRecords(values).Failure? then Failure(SheetsUnavailable)
    else match DashboardSummary(invoices, productCount, dateFrom, dateTo)
      case None => Failure("'int' object has no attribute 'strip'")
      case Some(_) => Failure("name 'customer_codes_in_period' is not defined")
  }

  /** Cash, transfer and every other payment method together make up the
      total revenue, and the total spent by customers is that total. */
  lemma {:induction false} PaymentSplit(invoices: seq<Invoice>, productCount: nat, dateFrom: string, dateTo: string)
    requires DashboardSummary(invoices, productCount, dateFrom, dateTo).Some?
    ensures var s := DashboardSummary(invoices, productCount, dateFrom, dateTo).value;
      && s.cashRevenue + s.transferRevenue + Revenue(PaidOtherwise(FilterByDate(invoices, dateFrom, dateTo))) == s.totalRevenue
      && s.totalCustomerSpent == s.totalRevenue
  {
    RevenueSplit(FilterByDate(invoices, dateFrom, dateTo));
  }

  /** The revenue of any list of invoices splits by payment method. */
  lemma {:induction false} RevenueSplit(invs: seq<Invoice>)
    ensures Revenue(PaidBy(invs, "cash")) + Revenue(PaidBy(invs, "transfer")) + Revenue(PaidOtherwise(invs)) == Revenue(invs)
  {
    if invs != [] {
      var init, last := invs[..|invs| - 1], invs[|invs| - 1];
      RevenueSplit(init);
      SumAppend(PaidBy(init, "cash"), if last.payment == Text("cash") then [last] else [], Amount);
      SumAppend(PaidBy(init, "transfer"), if last.payment == Text("transfer") then [last] else [], Amount);
      SumAppend(PaidOtherwise(init), if last.payment != Text("cash") && last.payment != Text("transfer") then [last] else [], Amount);
      SumOne(last, Amount);
    }
  }

  /** The counts: invoices in range, distinct names, the whole catalogue;
      and the average is the guarded quotient. */
  lemma {:induction false} SummaryCounts(invoices: seq<Invoice>, productCount: nat, dateFrom: string, dateTo: string)
    requires DashboardSummary(invoices, productCount, dateFrom, dateTo).Some?
    ensures var s := DashboardSummary(invoices, productCount, dateFrom, dateTo).value;
      && s.totalInvoices == |FilterByDate(invoices, dateFrom, dateTo)|
      && s.totalProducts == productCount
      && (s.totalCustomers == 0 ==> s.avgCustomerSpent == 0.0)
      && (s.totalCustomers > 0 ==> s.avgCustomerSpent == s.totalRevenue as real / s.totalCustomers as real)
  {
  }

  /** With no invoice in range every figure but the catalogue size is 0,
      and the average is 0 rather than a division by zero. */
  lemma {:induction false} EmptyPeriod(invoices: seq<Invoice>, productCount: nat, dateFrom: string, dateTo: string)
    requires FilterByDate(invoices, dateFrom, dateTo) == []
    ensures DashboardSummary(invoices, productCount, dateFrom, dateTo)
         == Some(Stats(0, 0, 0, productCount, 0, 0, 0, 0.0))
  {
  }

  /** 100000 paid in cash on 10/03/2024 and 50000 paid by transfer on
      12/03/2024, over March 2024: revenue 150000, of which 100000 cash and
      50000 transfer, in 2 invoices. */
  lemma {:induction false} MarchExample(a: Invoice, b: Invoice)
    requires a.date == Text("10" + "/" + "03" + "/" + "2024") && b.date == Text("12" + "/" + "03" + "/" + "2024")
    requires a.total == Number(100000) && b.total == Number(50000)
    requires a.payment == Text("cash") && b.payment == Text("transfer")
    requires a.customerName.Text? && b.customerName.Text?
    ensures var s := DashboardSummary([a, b], 0, "2024-03-01", "2024-03-31");
      && s.Some?
      && s.value.totalRevenue == 150000 && s.value.totalInvoices == 2
      && s.value.cashRevenue == 100000 && s.value.transferRevenue == 50000
  {
    MarchKeys(a.date, b.date);
    MarchOrder();
    KeepBoth(a, b, "2024-03-01", "2024-03-31");
    WholeNumbers(100000);
    WholeNumbers(50000);
    MarchSums(a, b);
    TextNamesOfTwo(a, b);
  }

  lemma {:induction false} MarchSums(a: Invoice, b: Invoice)
    requires Amount(a) == 100000 && Amount(b) == 50000
    requires a.payment == Text("cash") && b.payment == Text("transfer")
    ensures Revenue([a, b]) == 150000
    ensures Revenue(PaidBy([a, b], "cash")) == 100000
    ensures Revenue(PaidBy([a, b], "transfer")) == 50000
  {
    SumPair(a, b, Amount);
    CashFirst(a, b);
    SumOne(a, Amount);
    SumOne(b, Amount);
  }

  lemma {:induction false} TextNamesOfTwo(a: Invoice, b: Invoice)
    requires a.customerName.Text? && b.customerName.Text?
    ensures NamesInPeriod([a, b]).Some?
  {
    TextNames([a, b]);
  }

  lemma {:induction false} CashFirst(a: Invoice, b: Invoice)
    requires a.payment == Text("cash") && b.payment == Text("transfer")
    ensures PaidBy([a, b], "cash") == [a] && PaidBy([a, b], "transfer") == [b]
  {
    FilterPair(a, b, (inv: Invoice) => inv.payment == Text("cash"));
    FilterPair(a, b, (inv: Invoice) => inv.payment == Text("transfer"));
  }

  lemma {:induction false} KeepBoth(a: Invoice, b: Invoice, dateFrom: string, dateTo: string)
    requires Bounded(dateFrom, dateTo) && Kept(a, dateFrom, dateTo) && Kept(b, dateFrom, dateTo)
    ensures FilterByDate([a, b], dateFrom, dateTo) == [a, b]
  {
    FilterPair(a, b, inv => Kept(inv, dateFrom, dateTo));
  }

  lemma {:induction false} MarchKeys(a: Cell, b: Cell)
    requires a == Text("10" + "/" + "03" + "/" + "2024")
    requires b == Text("12" + "/" + "03" + "/" + "2024")
    ensures ParseInvoiceDate(a) == Some("2024-03-10")
    ensures ParseInvoiceDate(b) == Some("2024-03-12")
  {
    FieldsOfTenth();
    FieldsOfTwelfth();
    MarchSpelled();
  }

  lemma {:induction false} MarchSpelled()
    ensures "2024" + "-" + "03" + "-" + "10" == "2024-03-10"
    ensures "2024" + "-" + "03" + "-" + "12" == "2024-03-12"
  {
  }

  lemma {:induction false} FieldsOfTenth()
    ensures ParseInvoiceDate(Text("10" + "/" + "03" + "/" + "2024")) == Some("2024" + "-" + "03" + "-" + "10")
  {
    MarchDigits();
    PaddedDate("10", "03", "2024");
  }

  lemma {:induction false} FieldsOfTwelfth()
    ensures ParseInvoiceDate(Text("12" + "/" + "03" + "/" + "2024")) == Some("2024" + "-" + "03" + "-" + "12")
  {
    MarchDigits();
    PaddedDate("12", "03", "2024");
  }

  lemma {:induction false} MarchDigits()
    ensures DigitsValue("10") == 10 && DigitsValue("12") == 12 && DigitsValue("03") == 3
  {
    assert "10"[..1] == "1";
    assert "12"[..1] == "1";
    assert "03"[..1] == "0";
  }

  lemma {:induction false} MarchOrder()
    ensures LexLe("2024-03-01", "2024-03-10") && LexLe("2024-03-10", "2024-03-31")
    ensures LexLe("2024-03-01", "2024-03-12") && LexLe("2024-03-12", "2024-03-31")
  {
    FirstBeforeTenth();
    TenthBeforeLast();
    FirstBeforeTwelfth();
    TwelfthBeforeLast();
  }

  lemma FirstBeforeTenth()
    ensures LexLe("2024-03-01", "2024-03-10")
  {
    LexLessAt("2024-03-01", "2024-03-10", 8);
  }

  lemma TenthBeforeLast()
    ensures LexLe("2024-03-10", "2024-03-31")
  {
    LexLessAt("2024-03-10", "2024-03-31", 8);
  }

  lemma FirstBeforeTwelfth()
    ensures LexLe("2024-03-01", "2024-03-12")
  {
    LexLessAt("2024-03-01", "2024-03-12", 8);
  }

  lemma TwelfthBeforeLast()
    ensures LexLe("2024-03-12", "2024-03-31")
  {
    LexLessAt("2024-03-12", "2024-03-31", 8);
  }
}
