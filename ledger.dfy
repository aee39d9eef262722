/** The cached running total of the customer table, kept up to date by
    `update_customer_spent`: after a sale, the first customer row whose
    phone number matches gets its total increased by the amount paid, and
    the new total is written back as text such as `1,234,000 đ` into the
    sixth column of that row. */
module Ledger {
  import opened Wrappers
  import opened Text
  import opened Sheet
  import opened Seqs

  const PhoneHeader: string := "Số Điện Thoại"
  const SpentHeader: string := "Tổng Chi Tiêu"

  /** `update_cell(i, 6, ...)` writes the sixth column, index 5 of the row,
      whatever the header row says is there. */
  const SpentColumn: nat := 5

  /** Column `j` is the last one headed `key`. */
  predicate LastAt(header: seq<string>, key: string, j: nat) {
    j < |header| && header[j] == key && forall l :: j < l < |header| ==> header[l] != key
  }

  /** The last column headed `key`: building a row's record keeps the
      last of duplicate headers. */
  function LastIndex(header: seq<string>, key: string): (r: Option<nat>)
    ensures r.Some? ==> LastAt(header, key, r.value)
    ensures r.None? ==> forall l :: 0 <= l < |header| ==> header[l] != key
  {
    if header == [] then None
    else if header[|header| - 1] == key then Some(|header| - 1)
    else LastIndex(header[..|header| - 1], key)
  }

  /** A row's cell in column `j`, empty where the row is too short. */
  function CellOr(row: seq<Cell>, j: nat): Cell {
    if j < |row| then row[j] else Text("")
  }

  /** `record.get(key)` on the record of one row: `None` when no header
      is `key`. */
  function Lookup(header: seq<string>, row: seq<Cell>, key: string): Option<Cell> {
    match LastIndex(header, key)
    case None => None
    case Some(j) => Some(CellOr(row, j))
  }

  /** `customer_phone_str`: the stored phone without spaces and without the
      quote that keeps the sheet from reading it as a number; `''` for an
      empty or missing phone. */
  function StoredPhone(c: Option<Cell>): string {
    match c
    case None => ""
    case Some(v) => if Truthy(v) then RemoveChar(RemoveChar(Str(v), ' '), '\'') else ""
  }

  /** The row belongs to the customer with this phone: both sides compared
      without spaces. */
  predicate PhoneMatches(header: seq<string>, row: seq<Cell>, phone: string) {
    StoredPhone(Lookup(header, row, PhoneHeader)) == RemoveChar(phone, ' ')
  }

  /** `current_spent`: a number is used as it is; a string loses every
      ` đ` and every `,` and counts only when what is left is all digits;
      a missing column counts as 0. */
  function CurrentSpent(c: Option<Cell>): int {
    match c
    case None => 0
    case Some(Number(n)) => n
    case Some(Text(s)) =>
      var t := RemoveChar(RemoveAll(s, " đ"), ',');
      if IsDigitString(t) then DigitsValue(t) else 0
  }

  /** The amount paid: a number as it is, a string only when it is all
      digits. */
  function PaidAmount(amount: Cell): int {
    match amount
    case Number(n) => n
    case Text(s) => if IsDigitString(s) then DigitsValue(s) else 0
  }

  /** `f"{n:,} đ"`. */
  function SpentText(n: int): string {
    SignedThousands(n) + " đ"
  }

  /** A row with column `c` set to `v`; writing past the end of a row
      leaves empty cells in between. */
  function SetCell(row: seq<Cell>, c: nat, v: Cell): (r: seq<Cell>)
    ensures |r| == if c < |row| then |row| else c + 1
    ensures r[c] == v
    ensures forall k :: 0 <= k < |r| && k != c ==> r[k] == if k < |row| then row[k] else Text("")
  {
    if c < |row| then row[c := v] else row + seq(c - |row|, _ => Text("")) + [v]
  }

  /** The matching row after the payment. */
  function Paid(header: seq<string>, row: seq<Cell>, amount: Cell): seq<Cell> {
    var newSpent := CurrentSpent(Lookup(header, row, SpentHeader)) + PaidAmount(amount);
    SetCell(row, SpentColumn, Text(SpentText(newSpent)))
  }

  /** The test the loop applies to each row. */
  function Matching(header: seq<string>, phone: string): seq<Cell> -> bool {
    row => PhoneMatches(header, row, phone)
  }

  /** The first row whose phone matches, the one the loop stops at. */
  function FirstMatch(header: seq<string>, rows: seq<seq<Cell>>, phone: string): Option<nat> {
    FirstWhere(rows, Matching(header, phone))
  }

  /** The customer rows after `update_customer_spent(phone, amount)`. */
  function ApplyPayment(header: seq<string>, rows: seq<seq<Cell>>, phone: string, amount: Cell): seq<seq<Cell>> {
    match FirstMatch(header, rows, phone)
    case None => rows
    case Some(i) => rows[i := Paid(header, rows[i], amount)]
  }

  /** The customer sheet: its header row and the rows below it, row `k`
      of `rows` being row `k + 2` of the sheet. */
  class CustomerSheet {
    var header: seq<string>
    var rows: seq<seq<Cell>>

    constructor (header: seq<string>, rows: seq<seq<Cell>>)
      ensures this.header == header && this.rows == rows
    {
      this.header := header;
      this.rows := rows;
    }

    /** `update_customer_spent(phone, amount)`: the loop over the records
        stops at the first row whose phone matches; that row's total is
        read, the amount added, and the sum written back as text. */
    method UpdateCustomerSpent(phone: string, amount: Cell)
      modifies this
      ensures header == old(header)
      ensures rows == ApplyPayment(old(header), old(rows), phone, amount)
    {
      var found := FindFirst(rows, Matching(header, phone));
      if found.Some? {
        var i := found.value;
        var record := rows[i];
        var currentSpent := CurrentSpent(Lookup(header, record, SpentHeader));
        var newSpent := currentSpent + PaidAmount(amount);
        var written := SetCell(record, SpentColumn, Text(SpentText(newSpent)));
        PaidRow(header, record, amount, newSpent);
        rows := rows[i := written];
      }
    }
  }

  /** The row the updater writes is the paid row. */
  lemma PaidRow(header: seq<string>, row: seq<Cell>, amount: Cell, newSpent: int)
    requires newSpent == CurrentSpent(Lookup(header, row, SpentHeader)) + PaidAmount(amount)
    ensures Paid(header, row, amount) == SetCell(row, SpentColumn, Text(SpentText(newSpent)))
  {
  }

  /** A loop that meets no matching phone writes nothing. */
  lemma {:induction false} NoMatch(header: seq<string>, rows: seq<seq<Cell>>, phone: string)
    requires forall k :: 0 <= k < |rows| ==> !PhoneMatches(header, rows[k], phone)
    ensures FirstMatch(header, rows, phone) == None
  {
    var p := Matching(header, phone);
    assert forall k :: 0 <= k < |rows| ==> !p(rows[k]);
  }

  // ------------------------------------------------------------ lemmas

  /** Under the last column headed `key` the lookup finds that column's
      cell. */
  lemma {:induction false} LookupAt(header: seq<string>, row: seq<Cell>, key: string, j: nat)
    requires LastAt(header, key, j)
    ensures LastIndex(header, key) == Some(j)
    ensures Lookup(header, row, key) == Some(CellOr(row, j))
  {
  }


  /** Only the column written reads differently after the write. */
  lemma {:induction false} LookupAfterSet(header: seq<string>, row: seq<Cell>, key: string, c: nat, v: Cell)
    ensures Lookup(header, SetCell(row, c, v), key) ==
      if LastIndex(header, key) == Some(c) then Some(v) else Lookup(header, row, key)
  {
    var r := SetCell(row, c, v);
    match LastIndex(header, key)
    case None =>
    case Some(j) =>
      if j != c && j < |r| {
        assert r[j] == CellOr(row, j);
      }
  }

  /** The total written for a non-negative amount reads back as that
      amount. */
  lemma {:induction false} SpentRoundTrip(n: nat)
    ensures CurrentSpent(Some(Text(SpentText(n)))) == n
  {
    var t := Thousands(n);
    ThousandsDigits(n);
    ThousandsNoSpace(n);
    assert SpentText(n) == t + " đ";
    RemoveAllSuffix(t, " đ");
  }

  /** A negative total is written with a minus sign, which the updater
      does not read back: it counts as 0. */
  lemma {:induction false} NegativeReadsZero(n: int)
    requires n < 0
    ensures CurrentSpent(Some(Text(SpentText(n)))) == 0
  {
    var t := SignedThousands(n);
    MinusSign(n);
    RemoveAllSuffix(t, " đ");
    assert RemoveAll(SpentText(n), " đ") == t;
    assert !IsDigit(RemoveChar(t, ',')[0]);
  }

  /** The formatted total holds no space. */
  lemma ThousandsNoSpace(n: nat)
    ensures Lacks(Thousands(n), ' ')
  {
    var t := Thousands(n);
    ThousandsChars(n);
    forall i | 0 <= i < |t| ensures t[i] != ' ' {
      assert t[i] == ',' || IsDigit(t[i]);
    }
  }

  /** A negative total is printed with a leading minus and no space, and
      the minus survives the removal of the separators. */
  lemma {:induction false} MinusSign(n: int)
    requires n < 0
    ensures var t := SignedThousands(n);
      Lacks(t, ' ') && RemoveChar(t, ',') != [] && RemoveChar(t, ',')[0] == '-'
  {
    var d := Thousands(-n);
    var t := "-" + d;
    ThousandsNoSpace(-n);
    forall i | 0 <= i < |t| ensures t[i] != ' ' {
      if i > 0 {
        assert t[i] == d[i - 1];
      }
    }
    RemoveCharConcat("-", d, ',');
    assert RemoveChar("-", ',') == "-" by {
      assert "-"[1..] == [];
    }
  }


  /** Without a matching phone nothing is written. */
  lemma {:induction false} NoMatchUnchanged(header: seq<string>, rows: seq<seq<Cell>>, phone: string, amount: Cell)
    requires forall k :: 0 <= k < |rows| ==> !PhoneMatches(header, rows[k], phone)
    ensures ApplyPayment(header, rows, phone, amount) == rows
  {
    NoMatch(header, rows, phone);
  }

  /** With a matching phone exactly one row changes, the first match, and
      in it only the sixth column (the row is padded with empty cells if it
      was shorter), which holds the old total plus the amount as text. */
  lemma {:induction false} PaymentTouchesOneCell(header: seq<string>, rows: seq<seq<Cell>>, phone: string, amount: Cell, m: nat)
    requires FirstMatch(header, rows, phone) == Some(m)
    ensures m < |rows| && PhoneMatches(header, rows[m], phone)
    ensures forall k :: 0 <= k < m ==> !PhoneMatches(header, rows[k], phone)
    ensures var r := ApplyPayment(header, rows, phone, amount);
      && |r| == |rows|
      && (forall k :: 0 <= k < |rows| && k != m ==> r[k] == rows[k])
      && r[m][SpentColumn] == Text(SpentText(CurrentSpent(Lookup(header, rows[m], SpentHeader)) + PaidAmount(amount)))
      && (forall c :: 0 <= c < |rows[m]| && c != SpentColumn ==> r[m][c] == rows[m][c])
      && (forall c :: |rows[m]| <= c < |r[m]| && c != SpentColumn ==> r[m][c] == Text(""))
  {
    FirstMatchFacts(header, rows, phone, m);
    var total := CurrentSpent(Lookup(header, rows[m], SpentHeader)) + PaidAmount(amount);
    PaidRow(header, rows[m], amount, total);
    assert ApplyPayment(header, rows, phone, amount) == rows[m := Paid(header, rows[m], amount)];
  }

  /** What the search found: a matching row with none before it. */
  lemma {:induction false} FirstMatchFacts(header: seq<string>, rows: seq<seq<Cell>>, phone: string, m: nat)
    requires FirstMatch(header, rows, phone) == Some(m)
    ensures m < |rows| && PhoneMatches(header, rows[m], phone)
    ensures forall k :: 0 <= k < m ==> !PhoneMatches(header, rows[k], phone)
  {
    assert Matching(header, phone)(rows[m]);
    forall k | 0 <= k < m ensures !PhoneMatches(header, rows[k], phone) {
      assert !Matching(header, phone)(rows[k]);
    }
  }



  /** When the sixth column is the one headed `Tổng Chi Tiêu`, the same
      row stays the first match and its total grows by the amount paid,
      as long as the new total is not negative. */
  lemma {:induction false} PaymentRecorded(header: seq<string>, rows: seq<seq<Cell>>, phone: string, amount: Cell, m: nat)
    requires LastAt(header, SpentHeader, SpentColumn)
    requires FirstMatch(header, rows, phone) == Some(m)
    requires CurrentSpent(Lookup(header, rows[m], SpentHeader)) + PaidAmount(amount) >= 0
    ensures var r := ApplyPayment(header, rows, phone, amount);
      && FirstMatch(header, r, phone) == Some(m)
      && CurrentSpent(Lookup(header, r[m], SpentHeader))
         == CurrentSpent(Lookup(header, rows[m], SpentHeader)) + PaidAmount(amount)
  {
    var r := ApplyPayment(header, rows, phone, amount);
    var total := CurrentSpent(Lookup(header, rows[m], SpentHeader)) + PaidAmount(amount);
    var v := Text(SpentText(total));
    assert r[m] == SetCell(rows[m], SpentColumn, v);
    LookupAt(header, rows[m], SpentHeader, SpentColumn);
    LookupAfterSet(header, rows[m], SpentHeader, SpentColumn, v);
    LookupAfterSet(header, rows[m], PhoneHeader, SpentColumn, v);
    assert LastIndex(header, PhoneHeader) != Some(SpentColumn) by {
      assert header[SpentColumn] != PhoneHeader;
    }
    SpentRoundTrip(total);
    assert Matching(header, phone)(rows[m]);
    assert Matching(header, phone)(r[m]);
    forall k | 0 <= k < m ensures !Matching(header, phone)(r[k]) {
      assert r[k] == rows[k];
    }
  }

  /** Two payments by the same customer add up. */
  lemma {:induction false} TwoPayments(header: seq<string>, rows: seq<seq<Cell>>, phone: string, a: Cell, b: Cell, m: nat)
    requires LastAt(header, SpentHeader, SpentColumn)
    requires FirstMatch(header, rows, phone) == Some(m)
    requires CurrentSpent(Lookup(header, rows[m], SpentHeader)) >= 0 && PaidAmount(a) >= 0 && PaidAmount(b) >= 0
    ensures var r := ApplyPayment(header, ApplyPayment(header, rows, phone, a), phone, b);
      CurrentSpent(Lookup(header, r[m], SpentHeader))
      == CurrentSpent(Lookup(header, rows[m], SpentHeader)) + PaidAmount(a) + PaidAmount(b)
  {
    PaymentRecorded(header, rows, phone, a, m);
    PaymentRecorded(header, ApplyPayment(header, rows, phone, a), phone, b, m);
  }

  /** When `Tổng Chi Tiêu` is some other column, as in the header row the
      sheet is created with (where it is the seventh), the payment
      overwrites the sixth column and the total read back does not
      change. */
  lemma {:induction false} TotalElsewhere(header: seq<string>, rows: seq<seq<Cell>>, phone: string, amount: Cell, m: nat, j: nat)
    requires LastAt(header, SpentHeader, j) && j != SpentColumn
    requires FirstMatch(header, rows, phone) == Some(m)
    ensures var r := ApplyPayment(header, rows, phone, amount);
      CurrentSpent(Lookup(header, r[m], SpentHeader)) == CurrentSpent(Lookup(header, rows[m], SpentHeader))
  {
    var r := ApplyPayment(header, rows, phone, amount);
    var total := CurrentSpent(Lookup(header, rows[m], SpentHeader)) + PaidAmount(amount);
    var v := Text(SpentText(total));
    LookupAt(header, rows[m], SpentHeader, j);
    LookupAfterSet(header, rows[m], SpentHeader, SpentColumn, v);
  }
}
