/** The product ranking of `get_product_stats`: the line items of the
    invoices the date filter keeps are added up per product name, in a
    dictionary that remembers the order names were first seen; the products
    are then sorted by revenue, highest first (a stable sort), and the first
    ten are returned. */
module Products {
  import opened Wrappers
  import opened Sheet
  import opened Amounts
  import opened Seqs
  import opened Tally
  import opened Sorting
  import opened DateFilter

  /** One entry of the result: `{'name', 'quantity', 'revenue'}`. */
  datatype ProductStat = ProductStat(name: string, quantity: int, revenue: int)

  /** What one line item adds: its name, with its quantity and its parsed
      total. */
  type Sale = (string, (int, int))

  /** Reading one line item: `None` when `product.get` or `int(...)`
      raises. */
  function ReadItem(item: LineItem): (r: Option<Sale>)
    ensures r.Some? <==> item.Item? && item.quantity.Some?
  {
    match item
    case NotAnObject => None
    case Item(name, quantity, total) =>
      match quantity
      case None => None
      case Some(q) => Some((name, (q, SafeParseAmount(total))))
  }

  /** The sales one decoded item list contributes: the items before the
      first one that raises. The exception ends the invoice's loop, but what
      was added before it stays added. */
  function ReadItems(items: seq<LineItem>): seq<Sale> {
    MapWhile(items, ReadItem)
  }

  /** The sales of one invoice; an item list that did not decode gives
      none. */
  function InvoiceSales(inv: Invoice): seq<Sale> {
    match inv.items
    case None => []
    case Some(items) => ReadItems(items)
  }

  /** The sales of all invoices, in order. */
  function Sales(invs: seq<Invoice>): seq<Sale> {
    FlatMap(invs, InvoiceSales)
  }

  /** `+=` on the pair of quantity and revenue. */
  function AddSale(a: (int, int), b: (int, int)): (int, int) {
    (a.0 + b.0, a.1 + b.1)
  }

  function Quantity(v: (int, int)): int { v.0 }

  function Revenue(v: (int, int)): int { v.1 }

  /** `product_stats.values()`. */
  function StatsOf(acc: seq<Sale>): (r: seq<ProductStat>)
    ensures |r| == |acc|
    ensures forall i :: 0 <= i < |acc| ==> r[i] == ProductStat(acc[i].0, acc[i].1.0, acc[i].1.1)
  {
    if acc == [] then [] else StatsOf(acc[..|acc| - 1]) + [ProductStat(acc[|acc| - 1].0, acc[|acc| - 1].1.0, acc[|acc| - 1].1.1)]
  }

  /** The sort key, `reverse=True`: higher revenue comes first. */
  predicate ByRevenue(a: ProductStat, b: ProductStat) {
    a.revenue > b.revenue
  }

  /** The dictionary after the loop over the invoices in range. */
  function ProductTotals(invoices: seq<Invoice>, dateFrom: string, dateTo: string): seq<ProductStat> {
    StatsOf(AddAll([], Sales(FilterByDate(invoices, dateFrom, dateTo)), AddSale))
  }

  /** `sorted(stats, key=revenue, reverse=True)[:10]`. */
  function TopTen(stats: seq<ProductStat>): seq<ProductStat> {
    var sorted := SortBy(stats, ByRevenue);
    if |sorted| <= 10 then sorted else sorted[..10]
  }

  /** What `get_product_stats` returns as its data. */
  function ProductRanking(invoices: seq<Invoice>, dateFrom: string, dateTo: string): seq<ProductStat> {
    TopTen(ProductTotals(invoices, dateFrom, dateTo))
  }

  /** `get_product_stats(date_from, date_to)` on the invoice table. */
  method GetProductStats(invoices: seq<Invoice>, dateFrom: string, dateTo: string)
    returns (top: seq<ProductStat>)
    ensures top == ProductRanking(invoices, dateFrom, dateTo)
  {
    var invs := FilterInvoicesByDate(invoices, dateFrom, dateTo);
    var acc := AccumulateSales(invs);
    var sorted := SortBy(StatsOf(acc), ByRevenue);
    top := if |sorted| <= 10 then sorted else sorted[..10];
  }

  /** The loop over the invoices that fills `product_stats`. */
  method AccumulateSales(invs: seq<Invoice>) returns (acc: seq<Sale>)
    ensures acc == AddAll([], Sales(invs), AddSale)
  {
    acc := [];
    var i := 0;
    while i < |invs|
      invariant 0 <= i <= |invs|
      invariant acc == AddAll([], Sales(invs[..i]), AddSale)
    {
      SalesStep(invs, i, acc);
      match invs[i].items {
        case None =>
        case Some(items) =>
          acc := AddItems(acc, items);
      }
      i := i + 1;
    }
    assert invs[..i] == invs;
  }

  /** The loop over one invoice's decoded items, inside the `try` whose
      `except` moves on to the next invoice. */
  method AddItems(acc0: seq<Sale>, items: seq<LineItem>) returns (acc: seq<Sale>)
    ensures acc == AddAll(acc0, ReadItems(items), AddSale)
  {
    acc := acc0;
    var j := 0;
    while j < |items|
      invariant 0 <= j <= |items|
      invariant AllSome(items[..j], ReadItem)
      invariant acc == AddAll(acc0, ReadItems(items[..j]), AddSale)
    {
      match items[j] {
        case NotAnObject =>
          break;
        case Item(name, quantity, total) =>
          if quantity.None? {
            break;
          }
          var q := quantity.value;
          var t := SafeParseAmount(total);
          SaleStep(items, j, acc0, acc, (name, (q, t)));
          match Find(acc, name) {
            case Some(k) =>
              SaleFound(acc, name, q, t, k);
              acc := acc[k := (name, (acc[k].1.0 + q, acc[k].1.1 + t))];
            case None =>
              SaleNew(acc, name, q, t);
              acc := acc + [(name, (q, t))];
          }
      }
      j := j + 1;
    }
    MapWhilePrefix(items, j, ReadItem);
  }

  /** `product_stats[name]['quantity'] += quantity` and the same for the
      revenue is the dictionary step for a name already present. */
  lemma {:induction false} SaleFound(acc: seq<Sale>, name: string, q: int, t: int, k: nat)
    requires Find(acc, name) == Some(k)
    ensures Add(acc, (name, (q, t)), AddSale) == acc[k := (name, (acc[k].1.0 + q, acc[k].1.1 + t))]
  {
    AddFound(acc, (name, (q, t)), AddSale, k);
  }

  /** `product_stats[name] = {...}` is the step for a new name. */
  lemma {:induction false} SaleNew(acc: seq<Sale>, name: string, q: int, t: int)
    requires Find(acc, name) == None
    ensures Add(acc, (name, (q, t)), AddSale) == acc + [(name, (q, t))]
  {
    AddNew(acc, (name, (q, t)), AddSale);
  }

  /** One invoice's sales carry the accumulator from the invoices before it
      to the invoices up to it. */
  lemma {:induction false} SalesStep(invs: seq<Invoice>, i: nat, acc: seq<Sale>)
    requires i < |invs| && acc == AddAll([], Sales(invs[..i]), AddSale)
    ensures AddAll(acc, InvoiceSales(invs[i]), AddSale) == AddAll([], Sales(invs[..i + 1]), AddSale)
  {
    FlatMapStep(invs, i, InvoiceSales);
    AddAllAppend([], Sales(invs[..i]), InvoiceSales(invs[i]), AddSale);
  }

  /** One item that reads without raising is one step of the dictionary. */
  lemma {:induction false} SaleStep(items: seq<LineItem>, j: nat, base: seq<Sale>, acc: seq<Sale>, sale: Sale)
    requires j < |items| && AllSome(items[..j], ReadItem) && ReadItem(items[j]) == Some(sale)
    requires acc == AddAll(base, ReadItems(items[..j]), AddSale)
    ensures AllSome(items[..j + 1], ReadItem)
    ensures AddAll(base, ReadItems(items[..j + 1]), AddSale) == Add(acc, sale, AddSale)
  {
    MapWhileStep(items, j, ReadItem);
    var done := ReadItems(items[..j]);
    assert (done + [sale])[..|done|] == done;
  }

  /** An item that raises part-way through an invoice ends that invoice's
      contribution, and the items before it stay counted. */
  lemma {:induction false} PartialInvoice(pre: seq<LineItem>, bad: LineItem, post: seq<LineItem>)
    requires AllSome(pre, ReadItem) && ReadItem(bad).None?
    ensures ReadItems(pre + [bad] + post) == ReadItems(pre)
  {
    MapWhileStops(pre, bad, post, ReadItem);
  }

  /** An invoice whose item list did not decode changes nothing, wherever
      it stands. */
  lemma {:induction false} UndecodedInvoice(pre: seq<Invoice>, inv: Invoice, post: seq<Invoice>)
    requires inv.items.None?
    ensures Sales(pre + [inv] + post) == Sales(pre + post)
  {
    FlatMapAppend(pre + [inv], post, InvoiceSales);
    FlatMapAppend(pre, [inv], InvoiceSales);
    FlatMapAppend(pre, post, InvoiceSales);
    assert [inv][..0] == [];
    assert Sales([inv]) == [];
    assert Sales(pre) + [] == Sales(pre);
  }

  /** The names of the ranked products. */
  function Names(stats: seq<ProductStat>): (r: seq<string>)
    ensures |r| == |stats| && forall i :: 0 <= i < |stats| ==> r[i] == stats[i].name
  {
    if stats == [] then [] else Names(stats[..|stats| - 1]) + [stats[|stats| - 1].name]
  }

  /** The dictionary holds one entry per product name that was sold, in the
      order the names were first seen; its quantity and revenue are the sums
      over all sales of that name. */
  lemma {:induction false} TotalsAreSums(invoices: seq<Invoice>, dateFrom: string, dateTo: string, i: nat)
    requires i < |ProductTotals(invoices, dateFrom, dateTo)|
    ensures var sales := Sales(FilterByDate(invoices, dateFrom, dateTo));
      var p := ProductTotals(invoices, dateFrom, dateTo)[i];
      && p.quantity == KeySum(sales, p.name, Quantity)
      && p.revenue == KeySum(sales, p.name, Revenue)
  {
    var sales := Sales(FilterByDate(invoices, dateFrom, dateTo));
    AddAllSums(sales, AddSale, Quantity, i);
    AddAllSums(sales, AddSale, Revenue, i);
  }

  /** The names in the dictionary are those of the sales, each once, in
      order of first appearance. */
  lemma {:induction false} TotalsNames(invoices: seq<Invoice>, dateFrom: string, dateTo: string)
    ensures Names(ProductTotals(invoices, dateFrom, dateTo)) == Dedup(Keys(Sales(FilterByDate(invoices, dateFrom, dateTo))))
    ensures Distinct(Names(ProductTotals(invoices, dateFrom, dateTo)))
  {
    var acc := AddAll([], Sales(FilterByDate(invoices, dateFrom, dateTo)), AddSale);
    AddAllKeys(Sales(FilterByDate(invoices, dateFrom, dateTo)), AddSale);
    DedupMembers(Keys(Sales(FilterByDate(invoices, dateFrom, dateTo))));
    assert Names(StatsOf(acc)) == Keys(acc);
  }

  /** Revenue order is a strict weak order. */
  lemma ByRevenueOrder()
    ensures StrictWeakOrder(ByRevenue)
  {
  }

  /** `r` is the top ten of `stats`: the ten best products, or all of them
      when there are fewer, in non-increasing revenue, each name once, all
      drawn from `stats`, and no product left out earns more than one that
      is kept. */
  ghost predicate TopTenOf(r: seq<ProductStat>, stats: seq<ProductStat>) {
    && |r| == (if |stats| <= 10 then |stats| else 10)
    && (forall i, j :: 0 <= i < j < |r| ==> r[i].revenue >= r[j].revenue)
    && Distinct(Names(r))
    && (forall p :: p in r ==> p in stats)
    && (forall p, q :: p in stats && p !in r && q in r ==> q.revenue >= p.revenue)
  }

  /** The ranking is the top ten of the dictionary. */
  lemma {:induction false} RankingOrder(invoices: seq<Invoice>, dateFrom: string, dateTo: string)
    ensures TopTenOf(ProductRanking(invoices, dateFrom, dateTo), ProductTotals(invoices, dateFrom, dateTo))
  {
    TotalsNames(invoices, dateFrom, dateTo);
    TopTenOrder(ProductTotals(invoices, dateFrom, dateTo));
  }

  /** The top ten of any list of products with distinct names. */
  lemma {:induction false} TopTenOrder(stats: seq<ProductStat>)
    requires Distinct(Names(stats))
    ensures TopTenOf(TopTen(stats), stats)
  {
    TopTenSorted(stats);
    TopTenDistinct(stats);
    TopTenDrawn(stats);
  }

  lemma {:induction false} TopTenSorted(stats: seq<ProductStat>)
    ensures var r := TopTen(stats);
      forall i, j :: 0 <= i < j < |r| ==> r[i].revenue >= r[j].revenue
  {
    var sorted := SortBy(stats, ByRevenue);
    var r := TopTen(stats);
    ByRevenueOrder();
    SortBySorted(stats, ByRevenue);
    forall i, j | 0 <= i < j < |r| ensures r[i].revenue >= r[j].revenue {
      assert r[i] == sorted[i] && r[j] == sorted[j];
      assert !ByRevenue(sorted[j], sorted[i]);
    }
  }

  lemma {:induction false} TopTenDistinct(stats: seq<ProductStat>)
    requires Distinct(Names(stats))
    ensures Distinct(Names(TopTen(stats)))
  {
    var sorted := SortBy(stats, ByRevenue);
    var r := TopTen(stats);
    SortByPermutation(stats, ByRevenue);
    PermutationDistinct(stats, sorted);
    forall i, j | 0 <= i < j < |r| ensures Names(r)[i] != Names(r)[j] {
      assert r[i] == sorted[i] && r[j] == sorted[j];
      assert Names(sorted)[i] != Names(sorted)[j];
    }
  }

  lemma {:induction false} TopTenDrawn(stats: seq<ProductStat>)
    ensures var r := TopTen(stats);
      && (forall p :: p in r ==> p in stats)
      && (forall p, q :: p in stats && p !in r && q in r ==> q.revenue >= p.revenue)
  {
    var sorted := SortBy(stats, ByRevenue);
    var r := TopTen(stats);
    assert r == sorted[..|r|];
    ByRevenueOrder();
    SortedPrefix(stats, ByRevenue, |r|);
    forall p, q | p in stats && p !in r && q in r ensures q.revenue >= p.revenue {
      assert !ByRevenue(p, q);
    }
  }

  function Name(p: ProductStat): string { p.name }

  /** Reordering keeps names distinct. */
  lemma {:induction false} PermutationDistinct(a: seq<ProductStat>, b: seq<ProductStat>)
    requires multiset(a) == multiset(b) && Distinct(Names(a))
    ensures Distinct(Names(b))
  {
    assert UniqueBy(a, Name) by {
      forall i, j | 0 <= i < j < |a| ensures Name(a[i]) != Name(a[j]) {
        assert Names(a)[i] != Names(a)[j];
      }
    }
    PermutationUnique(a, b, Name);
    forall i, j | 0 <= i < j < |b| ensures Names(b)[i] != Names(b)[j] {
      assert Name(b[i]) != Name(b[j]);
    }
  }

  /** Products with equal revenue keep the order in which their names were
      first seen. */
  lemma {:induction false} RankingTies(invoices: seq<Invoice>, dateFrom: string, dateTo: string, v: ProductStat)
    ensures Filter(SortBy(ProductTotals(invoices, dateFrom, dateTo), ByRevenue), y => Tied(ByRevenue, y, v))
         == Filter(ProductTotals(invoices, dateFrom, dateTo), y => Tied(ByRevenue, y, v))
  {
    ByRevenueOrder();
    SortByStable(ProductTotals(invoices, dateFrom, dateTo), ByRevenue, v);
  }

  /** Two invoices that each sell two of a product at 40000 make one entry
      of quantity 4 and revenue 80000. */
  lemma {:induction false} TwoSales(a: Invoice, b: Invoice, name: string)
    requires a.items == Some([Item(name, Some(2), Number(40000))])
    requires b.items == Some([Item(name, Some(2), Number(40000))])
    ensures ProductRanking([a, b], "", "") == [ProductStat(name, 4, 80000)]
  {
    var sale: Sale := (name, (2, 40000));
    OneSale(a, name);
    OneSale(b, name);
    SalesOfTwo(a, b);
    SameSaleTwice(sale);
    TopOfOne(ProductStat(name, 4, 80000));
  }

  lemma {:induction false} OneSale(inv: Invoice, name: string)
    requires inv.items == Some([Item(name, Some(2), Number(40000))])
    ensures InvoiceSales(inv) == [(name, (2, 40000))]
  {
    var item := Item(name, Some(2), Number(40000));
    ReadCoffee(item, name);
    SingleItem(item, (name, (2, 40000)));
  }

  lemma {:induction false} ReadCoffee(item: LineItem, name: string)
    requires item == Item(name, Some(2), Number(40000))
    ensures ReadItem(item) == Some((name, (2, 40000)))
  {
    WholeNumbers(40000);
  }

  lemma {:induction false} SingleItem(item: LineItem, sale: Sale)
    requires ReadItem(item) == Some(sale)
    ensures ReadItems([item]) == [sale]
  {
    MapWhileOne(item, ReadItem);
  }

  lemma {:induction false} SalesOfTwo(a: Invoice, b: Invoice)
    ensures Sales([a, b]) == InvoiceSales(a) + InvoiceSales(b)
  {
    FlatMapTwo(a, b, InvoiceSales);
  }

  lemma {:induction false} SameSaleTwice(sale: Sale)
    requires sale.1 == (2, 40000)
    ensures AddAll([], [sale] + [sale], AddSale) == [(sale.0, (4, 80000))]
  {
    assert ([sale] + [sale])[..1] == [sale];
    assert [sale][..0] == [];
    assert AddAll([], [sale], AddSale) == [sale] by {
      var empty: seq<Sale> := [];
      assert Find(empty, sale.0) == None;
      assert empty + [sale] == [sale];
    }
    assert Find([sale], sale.0) == Some(0);
  }

  lemma {:induction false} TopOfOne(p: ProductStat)
    ensures TopTen(StatsOf([(p.name, (p.quantity, p.revenue))])) == [p]
  {
    var stats := StatsOf([(p.name, (p.quantity, p.revenue))]);
    assert stats == [p];
    assert stats[..0] == [];
  }

  lemma {:induction false} CoffeeExample(a: Invoice, b: Invoice)
    requires a.items == Some([Item("Coffee", Some(2), Number(40000))])
    requires b.items == Some([Item("Coffee", Some(2), Number(40000))])
    ensures ProductRanking([a, b], "", "") == [ProductStat("Coffee", 4, 80000)]
  {
    TwoSales(a, b, "Coffee");
  }
}
