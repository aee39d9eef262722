/** The values the reporting engine reads from the spreadsheet. The sheet
    client hands back each record as a dictionary from column header to cell
    value, and turns cells that look like whole numbers into `int`s; every
    other cell stays a string, and an empty cell is `''`. */
module Sheet {
  import opened Wrappers
  import opened Text

  /** One cell value as a record dictionary holds it. */
  datatype Cell = Text(s: string) | Number(n: int)

  /** Python truthiness of a cell value: `''` and `0` are false. */
  predicate Truthy(c: Cell) {
    match c
    case Text(s) => s != []
    case Number(n) => n != 0
  }

  /** Python's `str(value)`. */
  function Str(c: Cell): (r: string)
    ensures c.Text? ==> r == c.s
  {
    match c
    case Text(s) => s
    case Number(n) => IntToString(n)
  }

  /** One entry of the decoded `Chi Tiết SP (JSON)` list. `Item` is a JSON
      object; its `name` is `product.get('name', '')` and its `quantity` is
      the outcome of `int(product.get('quantity', 0))`, `None` when that
      call raises. `NotAnObject` is any other JSON value, on which
      `product.get` raises. */
  datatype LineItem =
    | Item(name: string, quantity: Option<int>, total: Cell)
    | NotAnObject

  /** One row of the invoice table (`HOA_DON`), restricted to the columns the
      reports read: `Ngày Giờ`, `Mã KH`, `Tên Khách`, `Tổng Thanh Toán`,
      `Hình Thức TT`, and the line items of `Chi Tiết SP (JSON)` already
      decoded (`None` when `json.loads` raises or the value is not a list). */
  datatype Invoice = Invoice(
    date: Cell,
    customerCode: Cell,
    customerName: Cell,
    total: Cell,
    payment: Cell,
    items: Option<seq<LineItem>>)
}
