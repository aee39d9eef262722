/** The date-range filter `_filter_invoices_by_date`, which every report
    runs first. With both bounds given it keeps, in their original order,
    the invoices whose normalised `Ngày Giờ` key lies between the bounds
    inclusive under string order; invoices whose date does not normalise
    are dropped. A missing bound (Python `None` or `''`, both written `""`
    here) turns the filter off. */
module DateFilter {
  import opened Wrappers
  import opened Text
  import opened Sheet
  import opened Dates
  import opened Seqs

  /** Both bounds are present: the filter is on. */
  predicate Bounded(dateFrom: string, dateTo: string) {
    dateFrom != [] && dateTo != []
  }

  /** `date_from <= key <= date_to` on strings. */
  predicate InRange(key: string, dateFrom: string, dateTo: string) {
    LexLe(dateFrom, key) && LexLe(key, dateTo)
  }

  /** One invoice passes the filter: its date normalises, and the key lies
      in the range. */
  predicate Kept(inv: Invoice, dateFrom: string, dateTo: string) {
    match ParseInvoiceDate(inv.date)
    case None => false
    case Some(key) => InRange(key, dateFrom, dateTo)
  }

  /** What the filter returns. */
  function FilterByDate(invs: seq<Invoice>, dateFrom: string, dateTo: string): seq<Invoice> {
    if Bounded(dateFrom, dateTo) then Filter(invs, inv => Kept(inv, dateFrom, dateTo)) else invs
  }

  /** `_filter_invoices_by_date(invoice_data, date_from, date_to)`: the loop
      that appends each kept invoice to `filtered_invoices`. */
  method FilterInvoicesByDate(invs: seq<Invoice>, dateFrom: string, dateTo: string)
    returns (filtered: seq<Invoice>)
    ensures filtered == FilterByDate(invs, dateFrom, dateTo)
    ensures !Bounded(dateFrom, dateTo) ==> filtered == invs
    ensures IsSubsequence(filtered, invs)
  {
    if !Bounded(dateFrom, dateTo) {
      SubsequenceRefl(invs);
      return invs;
    }
    ghost var keep := (x: Invoice) => Kept(x, dateFrom, dateTo);
    filtered := [];
    var i := 0;
    while i < |invs|
      invariant 0 <= i <= |invs|
      invariant filtered == Filter(invs[..i], keep)
    {
      var inv := invs[i];
      var key := ParseInvoiceDate(inv.date);
      var inRange := key.Some? && LexLe(dateFrom, key.value) && LexLe(key.value, dateTo);
      assert inRange == keep(invs[i]);
      FilterStep(invs, i, keep);
      if inRange {
        filtered := filtered + [inv];
      }
      i := i + 1;
    }
    assert invs[..i] == invs;
    FilterSubsequence(invs, keep);
  }

  /** With both bounds, an invoice is in the output exactly when it is in
      the input and its date normalises to a key inside the range; each
      such invoice occurs as often as in the input. */
  lemma {:induction false} FilterMembers(invs: seq<Invoice>, dateFrom: string, dateTo: string, x: Invoice)
    requires Bounded(dateFrom, dateTo)
    ensures x in FilterByDate(invs, dateFrom, dateTo)
        <==> x in invs && ParseInvoiceDate(x.date).Some? && InRange(ParseInvoiceDate(x.date).value, dateFrom, dateTo)
    ensures multiset(FilterByDate(invs, dateFrom, dateTo))[x]
         == if Kept(x, dateFrom, dateTo) then multiset(invs)[x] else 0
  {
    Seqs.FilterMembers(invs, inv => Kept(inv, dateFrom, dateTo), x);
    FilterCount(invs, inv => Kept(inv, dateFrom, dateTo), x);
  }

  /** Invoices whose date does not normalise never pass a bounded filter. */
  lemma {:induction false} UnparsableDropped(invs: seq<Invoice>, dateFrom: string, dateTo: string, x: Invoice)
    requires Bounded(dateFrom, dateTo) && ParseInvoiceDate(x.date) == None
    ensures x !in FilterByDate(invs, dateFrom, dateTo)
  {
    FilterMembers(invs, dateFrom, dateTo, x);
  }

  /** The range of January 2024 keeps an invoice of 15/01/2024 and drops
      one of 05/02/2024. */
  lemma {:induction false} JanuaryExample(a: Invoice, b: Invoice)
    requires a.date == Text("15" + "/" + "01" + "/" + "2024")
    requires b.date == Text("05" + "/" + "02" + "/" + "2024")
    ensures FilterByDate([a, b], "2024-01-01", "2024-01-31") == [a]
  {
    JanuaryKeys(a.date, b.date);
    JanuaryRange(a, b);
  }

  lemma {:induction false} JanuaryRange(a: Invoice, b: Invoice)
    requires ParseInvoiceDate(a.date) == Some("2024-01-15")
    requires ParseInvoiceDate(b.date) == Some("2024-02-05")
    ensures FilterByDate([a, b], "2024-01-01", "2024-01-31") == [a]
  {
    JanuaryOrder();
    KeepFirstOfTwo(a, b, "2024-01-01", "2024-01-31");
  }

  lemma {:induction false} KeepFirstOfTwo(a: Invoice, b: Invoice, dateFrom: string, dateTo: string)
    requires Bounded(dateFrom, dateTo) && Kept(a, dateFrom, dateTo) && !Kept(b, dateFrom, dateTo)
    ensures FilterByDate([a, b], dateFrom, dateTo) == [a]
  {
    var keep := (x: Invoice) => Kept(x, dateFrom, dateTo);
    assert Filter([a], keep) == [a] by {
      assert [a][..0] == [];
    }
    assert [a, b][..1] == [a];
  }

  lemma {:induction false} JanuaryOrder()
    ensures LexLe("2024-01-01", "2024-01-15")
    ensures LexLe("2024-01-15", "2024-01-31")
    ensures !LexLe("2024-02-05", "2024-01-31")
  {
    FirstBeforeMiddle();
    MiddleBeforeLast();
    LastBeforeFebruary();
  }

  lemma {:induction false} FirstBeforeMiddle()
    ensures LexLe("2024-01-01", "2024-01-15")
  {
    LexLessAt("2024-01-01", "2024-01-15", 8);
  }

  lemma {:induction false} MiddleBeforeLast()
    ensures LexLe("2024-01-15", "2024-01-31")
  {
    LexLessAt("2024-01-15", "2024-01-31", 8);
  }

  lemma {:induction false} LastBeforeFebruary()
    ensures !LexLe("2024-02-05", "2024-01-31")
  {
    LexLessAt("2024-01-31", "2024-02-05", 6);
  }

  lemma {:induction false} JanuaryKeys(a: Cell, b: Cell)
    requires a == Text("15" + "/" + "01" + "/" + "2024")
    requires b == Text("05" + "/" + "02" + "/" + "2024")
    ensures ParseInvoiceDate(a) == Some("2024-01-15")
    ensures ParseInvoiceDate(b) == Some("2024-02-05")
  {
    FieldsOfJanuary();
    FieldsOfFebruary();
    KeysSpelled();
  }

  lemma {:induction false} FieldsOfJanuary()
    ensures ParseInvoiceDate(Text("15" + "/" + "01" + "/" + "2024")) == Some("2024" + "-" + "01" + "-" + "15")
  {
    TwoDigits();
    PaddedDate("15", "01", "2024");
  }

  lemma {:induction false} FieldsOfFebruary()
    ensures ParseInvoiceDate(Text("05" + "/" + "02" + "/" + "2024")) == Some("2024" + "-" + "02" + "-" + "05")
  {
    TwoDigits();
    PaddedDate("05", "02", "2024");
  }

  lemma {:induction false} KeysSpelled()
    ensures "2024" + "-" + "01" + "-" + "15" == "2024-01-15"
    ensures "2024" + "-" + "02" + "-" + "05" == "2024-02-05"
  {
  }

  lemma {:induction false} TwoDigits()
    ensures DigitsValue("15") == 15 && DigitsValue("01") == 1
    ensures DigitsValue("05") == 5 && DigitsValue("02") == 2
  {
    assert "15"[..1] == "1";
    assert "01"[..1] == "0";
    assert "05"[..1] == "0";
    assert "02"[..1] == "0";
  }
}
