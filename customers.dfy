/** The customer table as the reports see it. `get_customers` turns every
    row of `KHACH_HANG` after the header row into a dictionary from column
    header to the raw cell text, and `create_customer` derives the code of
    a new customer from its name and phone number. */
module Customers {
  import opened Wrappers
  import opened Text
  import opened Seqs

  /** One customer: column header to raw cell text. */
  type Record = map<string, string>

  /** `record.get(key, '')`. */
  function Get(rec: Record, key: string): string {
    if key in rec then rec[key] else ""
  }

  /** `row[i] if i < len(row) else ''`: a short row reads as empty cells. */
  function CellAt(row: seq<string>, i: nat): string {
    if i < |row| then row[i] else ""
  }

  /** The dictionary the loop over `enumerate(headers)` builds from one
      row; a header that occurs twice keeps the cell under its last
      occurrence. */
  function RecordOf(headers: seq<string>, row: seq<string>): Record {
    if headers == [] then map[]
    else RecordOf(headers[..|headers| - 1], row)[headers[|headers| - 1] := CellAt(row, |headers| - 1)]
  }

  /** The inner loop, `customer[header] = value` for every header. */
  method BuildRecord(headers: seq<string>, row: seq<string>) returns (rec: Record)
    ensures rec == RecordOf(headers, row)
  {
    rec := map[];
    var i := 0;
    while i < |headers|
      invariant 0 <= i <= |headers|
      invariant rec == RecordOf(headers[..i], row)
    {
      assert headers[..i + 1][..i] == headers[..i];
      rec := rec[headers[i] := CellAt(row, i)];
      i := i + 1;
    }
    assert headers[..i] == headers;
  }

  /** The record has one key per header, and no other. */
  lemma {:induction false} RecordKeys(headers: seq<string>, row: seq<string>, h: string)
    ensures h in RecordOf(headers, row) <==> h in headers
  {
    if headers != [] {
      var init := headers[..|headers| - 1];
      RecordKeys(init, row, h);
      assert headers == init + [headers[|headers| - 1]];
    }
  }

  /** Under the last occurrence of a header the record holds that column's
      cell, or `''` when the row is too short to reach it. */
  lemma {:induction false} RecordField(headers: seq<string>, row: seq<string>, i: nat)
    requires i < |headers|
    requires forall j :: i < j < |headers| ==> headers[j] != headers[i]
    ensures headers[i] in RecordOf(headers, row)
    ensures RecordOf(headers, row)[headers[i]] == if i < |row| then row[i] else ""
  {
    var last := |headers| - 1;
    if i < last {
      var init := headers[..last];
      assert init[i] == headers[i];
      RecordField(init, row, i);
    }
  }

  /** A row the loop keeps: its first cell is non-empty. */
  predicate Listed(row: seq<string>) {
    row != [] && row[0] != ""
  }

  /** `str(e)` of the `IndexError` that `row[0]` raises on an empty row. */
  const IndexError: string := "list index out of range"

  /** The loop over the data rows: an empty row raises, a row with an
      empty first cell is skipped, any other row becomes a record. */
  function RowsToRecords(headers: seq<string>, rows: seq<seq<string>>): Result<seq<Record>> {
    if rows == [] then Success([])
    else
      match RowsToRecords(headers, rows[..|rows| - 1])
      case Failure(m) => Failure(m)
      case Success(recs) =>
        var row := rows[|rows| - 1];
        if row == [] then Failure(IndexError)
        else if row[0] == "" then Success(recs)
        else Success(recs + [RecordOf(headers, row)])
  }

  /** `get_customers` on the values of the sheet: a sheet with at most the
      header row has no customers. */
  function CustomerRecords(values: seq<seq<string>>): Result<seq<Record>> {
    if |values| <= 1 then Success([]) else RowsToRecords(values[0], values[1..])
  }

  /** `get_customers()` on `worksheet.get_all_values()`. */
  method GetCustomers(values: seq<seq<string>>) returns (r: Result<seq<Record>>)
    ensures r == CustomerRecords(values)
  {
    if |values| <= 1 {
      return Success([]);
    }
    var headers := values[0];
    var rows := values[1..];
    var customers: seq<Record> := [];
    var i := 0;
    while i < |rows|
      invariant 0 <= i <= |rows|
      invariant RowsToRecords(headers, rows[..i]) == Success(customers)
    {
      assert rows[..i + 1][..i] == rows[..i];
      var row := rows[i];
      if row == [] {
        FailureSticks(headers, rows, i + 1);
        return Failure(IndexError);
      }
      if row[0] != "" {
        var customer := BuildRecord(headers, row);
        customers := customers + [customer];
      }
      i := i + 1;
    }
    assert rows[..i] == rows;
    r := Success(customers);
  }

  /** Once a row has raised, the rows after it do not matter. */
  lemma {:induction false} FailureSticks(headers: seq<string>, rows: seq<seq<string>>, k: nat)
    requires k <= |rows| && RowsToRecords(headers, rows[..k]).Failure?
    ensures RowsToRecords(headers, rows) == RowsToRecords(headers, rows[..k])
    decreases |rows|
  {
    if k < |rows| {
      var init := rows[..|rows| - 1];
      assert init[..k] == rows[..k];
      FailureSticks(headers, init, k);
    } else {
      assert rows[..k] == rows;
    }
  }

  /** The loop fails exactly when some data row is empty, and then with
      the `IndexError` message. */
  lemma {:induction false} RowsFail(headers: seq<string>, rows: seq<seq<string>>)
    ensures RowsToRecords(headers, rows).Failure? <==> exists i :: 0 <= i < |rows| && rows[i] == []
    ensures RowsToRecords(headers, rows).Failure? ==> RowsToRecords(headers, rows).message == IndexError
  {
    if rows != [] {
      var init := rows[..|rows| - 1];
      RowsFail(headers, init);
      if exists i :: 0 <= i < |init| && init[i] == [] {
        var i :| 0 <= i < |init| && init[i] == [];
        assert rows[i] == [];
      }
      if exists i :: 0 <= i < |rows| && rows[i] == [] {
        var i :| 0 <= i < |rows| && rows[i] == [];
        if i < |init| {
          assert init[i] == [];
        }
      }
    }
  }

  /** When no row raises, there is one record per listed row, in sheet
      order, built from that row. */
  lemma {:induction false} RowsListed(headers: seq<string>, rows: seq<seq<string>>)
    requires RowsToRecords(headers, rows).Success?
    ensures |RowsToRecords(headers, rows).value| == |Filter(rows, Listed)|
    ensures forall k :: 0 <= k < |Filter(rows, Listed)| ==>
      RowsToRecords(headers, rows).value[k] == RecordOf(headers, Filter(rows, Listed)[k])
  {
    if rows != [] {
      var init := rows[..|rows| - 1];
      RowsListed(headers, init);
    }
  }

  /** `get_customers` fails exactly when a data row is empty; otherwise it
      returns one record per data row whose first cell is non-empty. */
  lemma {:induction false} CustomersListed(values: seq<seq<string>>)
    ensures CustomerRecords(values).Failure? <==> exists i :: 1 <= i < |values| && values[i] == []
    ensures CustomerRecords(values).Success? && |values| > 1 ==>
      |CustomerRecords(values).value| == |Filter(values[1..], Listed)|
      && forall k :: 0 <= k < |Filter(values[1..], Listed)| ==>
           CustomerRecords(values).value[k] == RecordOf(values[0], Filter(values[1..], Listed)[k])
    ensures |values| <= 1 ==> CustomerRecords(values) == Success([])
  {
    if |values| > 1 {
      var rows := values[1..];
      RowsFail(values[0], rows);
      if exists i :: 1 <= i < |values| && values[i] == [] {
        var i :| 1 <= i < |values| && values[i] == [];
        assert rows[i - 1] == [];
      }
      if exists i :: 0 <= i < |rows| && rows[i] == [] {
        var i :| 0 <= i < |rows| && rows[i] == [];
        assert values[i + 1] == [];
      }
      if CustomerRecords(values).Success? {
        RowsListed(values[0], rows);
      }
    }
  }

  // ------------------------------------------------------- customer code

  function Min(a: nat, b: nat): nat {
    if a <= b then a else b
  }

  /** `name.replace(' ', '') if name else ''` on the stripped name. */
  function NameClean(name: string): string {
    RemoveChar(Strip(name), ' ')
  }

  /** `f"{name_clean[:4]}{phone[-4:]}" if name_clean and phone else
      f"KH{count + 1:04d}"`. */
  function JoinCode(nameClean: string, phone: string, count: nat): string {
    if nameClean != [] && phone != [] then nameClean[..Min(4, |nameClean|)] + phone[|phone| - Min(4, |phone|)..]
    else "KH" + PadNumber(count + 1, 4)
  }

  /** The code `create_customer` gives a new customer, from the stripped
      name without its spaces and the stripped phone; `count` is the number
      of records already in the sheet. */
  function CustomerCode(name: string, phone: string, count: nat): string {
    JoinCode(NameClean(name), Strip(phone), count)
  }

  /** With a name and a phone, the code is at most eight characters: the
      first four characters of the name (spaces removed), then the last
      four of the phone, each whole when shorter. */
  lemma {:induction false} NamedCode(name: string, phone: string, count: nat)
    requires NameClean(name) != [] && Strip(phone) != []
    ensures var code := CustomerCode(name, phone, count);
      var n := Min(4, |NameClean(name)|);
      && |code| <= 8
      && code[..n] == NameClean(name)[..n] && Lacks(code[..n], ' ')
      && code[n..] == Strip(phone)[|Strip(phone)| - Min(4, |Strip(phone)|)..]
      && (|Strip(phone)| >= 4 ==> |code[n..]| == 4)
  {
    var code := CustomerCode(name, phone, count);
    var n := Min(4, |NameClean(name)|);
    assert code[..n] == NameClean(name)[..n];
  }

  /** Without a name or a phone, the code is `KH` and the sequence number
      `count + 1` zero-padded to four digits. */
  lemma {:induction false} FallbackCode(name: string, phone: string, count: nat)
    requires NameClean(name) == [] || Strip(phone) == []
    ensures var code := CustomerCode(name, phone, count);
      && |code| >= 6 && code[..2] == "KH"
      && IsDigitString(code[2..]) && DigitsValue(code[2..]) == count + 1
      && (count + 1 < 10000 ==> |code| == 6)
  {
    var code := CustomerCode(name, phone, count);
    var digits := PadNumber(count + 1, 4);
    assert code[2..] == digits;
    if count + 1 < 10000 {
      assert Pow10(4) == 10000;
      DecimalLength(count + 1, 4);
    }
  }

  /** A phone written with spaces, as phone numbers often are, puts a space
      into the code, although the derivation means to produce codes without
      spaces. */
  lemma {:induction false} SpacedPhoneCode(name: string, phone: string, count: nat, i: nat)
    requires NameClean(name) != []
    requires var p := Strip(phone); |p| - Min(4, |p|) <= i < |p| && p[i] == ' '
    ensures !Lacks(CustomerCode(name, phone, count), ' ')
  {
    var n, p := NameClean(name), Strip(phone);
    var code := CustomerCode(name, phone, count);
    assert code == n[..Min(4, |n|)] + p[|p| - Min(4, |p|)..];
    assert code[Min(4, |n|) + i - (|p| - Min(4, |p|))] == ' ';
  }

  /** The derivation with the spaces removed from the phone as well as
      from the name. */
  function IntendedCustomerCode(name: string, phone: string, count: nat): string {
    JoinCode(NameClean(name), RemoveChar(Strip(phone), ' '), count)
  }

  /** The intended code never contains a space. */
  lemma {:induction false} IntendedCodeNoSpace(name: string, phone: string, count: nat)
    ensures Lacks(IntendedCustomerCode(name, phone, count), ' ')
  {
    JoinCodeLacks(NameClean(name), RemoveChar(Strip(phone), ' '), count);
  }

  /** Joining parts without spaces gives a code without spaces. */
  lemma {:induction false} JoinCodeLacks(nameClean: string, phone: string, count: nat)
    requires Lacks(nameClean, ' ') && Lacks(phone, ' ')
    ensures Lacks(JoinCode(nameClean, phone, count), ' ')
  {
    if nameClean != [] && phone != [] {
      LacksJoin(nameClean, 0, Min(4, |nameClean|), phone, |phone| - Min(4, |phone|), |phone|, ' ');
    } else {
      var digits := PadNumber(count + 1, 4);
      LacksJoin("KH", 0, 2, digits, 0, |digits|, ' ');
      assert "KH"[0..2] == "KH" && digits[0..|digits|] == digits;
    }
  }

  /** Pieces of strings without `c`, joined, are without `c`. */
  lemma {:induction false} LacksJoin(a: string, i: nat, j: nat, b: string, k: nat, l: nat, c: char)
    requires i <= j <= |a| && k <= l <= |b|
    requires (forall x :: 0 <= x < |a| ==> a[x] != c) && (forall x :: 0 <= x < |b| ==> b[x] != c)
    ensures Lacks(a[i..j] + b[k..l], c)
  {
    var r := a[i..j] + b[k..l];
    forall x | 0 <= x < |r| ensures r[x] != c {
      if x < j - i {
        assert r[x] == a[i + x];
      } else {
        assert r[x] == b[k + x - (j - i)];
      }
    }
  }

  /** Stripping keeps only characters of the original. */
  lemma {:induction false} StripKeepsLacks(s: string, c: char)
    requires Lacks(s, c)
    ensures Lacks(Strip(s), c)
  {
    var l := StripLeft(s);
    assert l == s[|s| - |l|..|s|];
    LacksSlice(s, c, |s| - |l|, |s|);
    var r := StripRight(l);
    assert r == l[0..|r|];
    LacksSlice(l, c, 0, |r|);
  }

  lemma {:induction false} LacksSlice(s: string, c: char, i: nat, j: nat)
    requires Lacks(s, c) && i <= j <= |s|
    ensures Lacks(s[i..j], c)
  {
    forall k | 0 <= k < j - i ensures s[i..j][k] != c {
      assert s[i..j][k] == s[i + k];
    }
  }

  /** For a phone written without spaces the intended code is the code the
      source derives. */
  lemma {:induction false} IntendedAgrees(name: string, phone: string, count: nat)
    requires Lacks(phone, ' ')
    ensures IntendedCustomerCode(name, phone, count) == CustomerCode(name, phone, count)
  {
    StripKeepsLacks(phone, ' ');
    RemoveCharAbsent(Strip(phone), ' ');
  }
}
