/** The date normaliser `_parse_invoice_date`: turns an invoice timestamp
    `D/M/YYYY[ HH:MM]` into the key `YYYY-MM-DD` that the date filter
    compares, or `None`. It validates only upper bounds (month at most 12,
    day at most 31, year at most four characters) and never parses the
    year as a number. */
module Dates {
  import opened Wrappers
  import opened Text
  import opened Sheet

  /** The sortable key built from the padded fields. */
  function DateKey(year: string, month: string, day: string): string {
    year + "-" + month + "-" + day
  }

  /** `_parse_invoice_date(value)`. Every exception the Python code can
      raise here (a non-integer month or day) ends in `None`. */
  function ParseInvoiceDate(c: Cell): (r: Option<string>)
    ensures r.Some? ==> |r.value| >= 10 && r.value[4] == '-'
  {
    if !Truthy(c) then None else ParseDatePart(DatePart(Strip(Str(c))))
  }

  /** The text before the first space (the `DD/MM/YYYY` of `DD/MM/YYYY HH:MM`). */
  function DatePart(t: string): string {
    if ' ' in t then Split(t, ' ')[0] else t
  }

  /** The checks on `day/month/year` once the time of day is cut off. */
  function ParseDatePart(datePart: string): (r: Option<string>)
    ensures r.Some? ==> |r.value| >= 10 && r.value[4] == '-'
  {
    var parts := Split(datePart, '/');
    if |parts| != 3 then None else ParseFields(parts[0], parts[1], parts[2])
  }

  function ParseFields(day0: string, month0: string, year0: string): (r: Option<string>)
    ensures r.Some? ==> |r.value| >= 10 && r.value[4] == '-'
  {
    var day := ZFill(day0, 2);
    var month := ZFill(month0, 2);
    var year := ZFill(year0, 4);
    if |year| != 4 then None
    else match ParseInteger(month)
      case None => None
      case Some(m) =>
        if m > 12 then None
        else match ParseInteger(day)
          case None => None
          case Some(d) => if d > 31 then None else Some(DateKey(year, month, day))
  }

  /** A field of a date: no separator and no whitespace inside. */
  predicate PlainField(s: string) {
    forall i :: 0 <= i < |s| ==> s[i] != '/' && !IsSpace(s[i])
  }

  lemma {:induction false} DigitsPlain(s: string)
    requires IsDigits(s)
    ensures PlainField(s)
  {
    forall i | 0 <= i < |s| ensures s[i] != '/' && !IsSpace(s[i]) {
      assert IsDigit(s[i]);
    }
  }

  /** The three fields of a `D/M/Y` string are recovered by the split. */
  lemma {:induction false} SplitDate(d: string, m: string, y: string)
    requires Lacks(d, '/') && Lacks(m, '/') && Lacks(y, '/')
    ensures Split(d + "/" + m + "/" + y, '/') == [d, m, y]
  {
    assert d + "/" + m + "/" + y == d + ['/'] + (m + ['/'] + y);
    SplitAt(d, m + ['/'] + y, '/');
    SplitAt(m, y, '/');
    SplitNone(y, '/');
  }

  lemma {:induction false} PlainNoSlash(s: string)
    requires PlainField(s)
    ensures Lacks(s, '/') && Lacks(s, ' ')
  {
    forall i | 0 <= i < |s| ensures s[i] != ' ' {
      assert !IsSpace(s[i]);
    }
  }

  /** Digit fields give the fields' check its answer. */
  lemma {:induction false} DigitFields(d: string, m: string, y: string)
    requires IsDigits(d) && IsDigits(m)
    ensures ParseFields(d, m, y)
         == if |y| <= 4 && DigitsValue(m) <= 12 && DigitsValue(d) <= 31
            then Some(DateKey(ZFill(y, 4), ZFill(m, 2), ZFill(d, 2)))
            else None
  {
    ZFillDigits(m, 2);
    ZFillDigits(d, 2);
    ParseDigits(ZFill(m, 2));
    ParseDigits(ZFill(d, 2));
  }

  /** `D/M/Y` built from plain fields has no outer whitespace and no space. */
  lemma {:induction false} PlainDate(d: string, m: string, y: string)
    requires PlainField(d) && PlainField(m) && PlainField(y)
    ensures Strip(d + "/" + m + "/" + y) == d + "/" + m + "/" + y
    ensures DatePart(d + "/" + m + "/" + y) == d + "/" + m + "/" + y
    ensures PlainSpaces(d + "/" + m + "/" + y)
  {
    var s := d + "/" + m + "/" + y;
    assert s == d + "/" + (m + "/" + y);
    assert s[|d|] == '/';
    assert !IsSpace(s[0]) by {
      if d != [] { assert s[0] == d[0]; }
    }
    assert !IsSpace(s[|s| - 1]) by {
      if y != [] { assert s[|s| - 1] == y[|y| - 1]; }
    }
    StripUnchanged(s);
    forall i | 0 <= i < |s| ensures !IsSpace(s[i]) {
      if i < |d| {
        assert s[i] == d[i];
      } else if i == |d| {
      } else if i < |d| + 1 + |m| {
        assert s[i] == m[i - |d| - 1];
      } else if i == |d| + 1 + |m| {
      } else {
        assert s[i] == y[i - |d| - 2 - |m|];
      }
    }
    NoSpaceChar(s);
  }

  predicate PlainSpaces(s: string) {
    forall i :: 0 <= i < |s| ==> !IsSpace(s[i])
  }

  lemma {:induction false} NoSpaceChar(s: string)
    requires PlainSpaces(s)
    ensures Lacks(s, ' ') && ' ' !in s
  {
    forall i | 0 <= i < |s| ensures s[i] != ' ' {
      assert !IsSpace(s[i]);
    }
  }

  /** The whole behaviour on a timestamp whose day and month are digit
      strings: the key is `zfill(4)year-zfill(2)month-zfill(2)day` exactly
      when the year has at most four characters, the month is at most 12 and
      the day at most 31, and `None` otherwise. There is no lower bound and
      the year is never read as a number. */
  lemma {:induction false} DigitDate(d: string, m: string, y: string)
    requires IsDigits(d) && IsDigits(m) && PlainField(y)
    ensures ParseInvoiceDate(Text(d + "/" + m + "/" + y))
         == if |y| <= 4 && DigitsValue(m) <= 12 && DigitsValue(d) <= 31
            then Some(DateKey(ZFill(y, 4), ZFill(m, 2), ZFill(d, 2)))
            else None
  {
    var s := d + "/" + m + "/" + y;
    DigitsPlain(d);
    DigitsPlain(m);
    PlainNoSlash(d);
    PlainNoSlash(m);
    PlainNoSlash(y);
    PlainDate(d, m, y);
    assert s[|d|] == '/';
    assert Truthy(Text(s));
    SplitDate(d, m, y);
    DigitFields(d, m, y);
  }

  /** The whole behaviour on `D/M/Y` for any fields free of `/` and of
      whitespace: the key exactly when the year has at most four characters
      and `int()` accepts the padded month and day with values at most 12
      and 31; `None` otherwise, in particular when `int()` rejects the month
      or the day. */
  lemma {:induction false} PlainFieldsDate(d: string, m: string, y: string)
    requires PlainField(d) && PlainField(m) && PlainField(y)
    ensures ParseInvoiceDate(Text(d + "/" + m + "/" + y))
         == if |y| <= 4
               && ParseInteger(ZFill(m, 2)).Some? && ParseInteger(ZFill(m, 2)).value <= 12
               && ParseInteger(ZFill(d, 2)).Some? && ParseInteger(ZFill(d, 2)).value <= 31
            then Some(DateKey(ZFill(y, 4), ZFill(m, 2), ZFill(d, 2)))
            else None
  {
    var s := d + "/" + m + "/" + y;
    PlainNoSlash(d);
    PlainNoSlash(m);
    PlainNoSlash(y);
    PlainDate(d, m, y);
    assert s[|d|] == '/';
    assert Truthy(Text(s));
    SplitDate(d, m, y);
  }

  /** A month or a day that `int()` rejects gives `None`, whatever the
      other fields hold. */
  lemma {:induction false} NonIntegerField(d: string, m: string, y: string)
    requires PlainField(d) && PlainField(m) && PlainField(y)
    requires ParseInteger(ZFill(m, 2)).None? || ParseInteger(ZFill(d, 2)).None?
    ensures ParseInvoiceDate(Text(d + "/" + m + "/" + y)) == None
  {
    PlainFieldsDate(d, m, y);
  }

  /** A value without whitespace that does not split into exactly three
      `/`-fields gives `None`. */
  lemma {:induction false} WrongFieldCount(s: string)
    requires PlainSpaces(s) && |Split(s, '/')| != 3
    ensures ParseInvoiceDate(Text(s)) == None
  {
    if s != [] {
      StripUnchanged(s);
      NoSpaceChar(s);
    }
  }

  /** Every key the parser returns comes from a date part with exactly
      three `/`-fields, a year of at most four characters, and a month and
      a day that `int()` accepts within their upper bounds; the key is the
      padded fields in the order year, month, day. */
  lemma {:induction false} AcceptedDate(c: Cell)
    requires ParseInvoiceDate(c).Some?
    ensures Truthy(c)
    ensures var parts := Split(DatePart(Strip(Str(c))), '/');
      && |parts| == 3
      && |parts[2]| <= 4
      && ParseInteger(ZFill(parts[1], 2)).Some? && ParseInteger(ZFill(parts[1], 2)).value <= 12
      && ParseInteger(ZFill(parts[0], 2)).Some? && ParseInteger(ZFill(parts[0], 2)).value <= 31
      && ParseInvoiceDate(c).value == DateKey(ZFill(parts[2], 4), ZFill(parts[1], 2), ZFill(parts[0], 2))
  {
  }

  /** A well-formed `DD/MM/YYYY` within the bounds gives `YYYY-MM-DD`. */
  lemma {:induction false} PaddedDate(d: string, m: string, y: string)
    requires |d| == 2 && |m| == 2 && |y| == 4 && IsDigits(d) && IsDigits(m) && IsDigits(y)
    requires DigitsValue(m) <= 12 && DigitsValue(d) <= 31
    ensures ParseInvoiceDate(Text(d + "/" + m + "/" + y)) == Some(y + "-" + m + "-" + d)
  {
    DigitsPlain(y);
    DigitDate(d, m, y);
  }

  /** A trailing time of day after a space is ignored. */
  lemma {:induction false} DateWithTime(d: string, m: string, y: string, time: string)
    requires IsDigits(d) && IsDigits(m) && PlainField(y)
    requires time != [] && !IsSpace(time[0]) && !IsSpace(time[|time| - 1])
    ensures ParseInvoiceDate(Text(d + "/" + m + "/" + y + " " + time))
         == ParseInvoiceDate(Text(d + "/" + m + "/" + y))
  {
    var date := d + "/" + m + "/" + y;
    DigitsPlain(d);
    DigitsPlain(m);
    PlainDate(d, m, y);
    NoSpaceChar(date);
    assert date[0] == if d != [] then d[0] else '/';
    TimeCutOff(date, time);
  }

  /** A date without spaces followed by a space and a time: nothing to
      strip, and the part before the first space is the date. */
  lemma {:induction false} TimeCutOff(date: string, time: string)
    requires date != [] && !IsSpace(date[0]) && Lacks(date, ' ')
    requires time != [] && !IsSpace(time[|time| - 1])
    ensures Strip(date + " " + time) == date + " " + time
    ensures DatePart(date + " " + time) == date
  {
    var s := date + " " + time;
    assert s[0] == date[0];
    assert s[|s| - 1] == time[|time| - 1];
    StripUnchanged(s);
    assert s[|date|] == ' ';
    assert s == date + [' '] + time;
    SplitAt(date, time, ' ');
  }


  /** Empty values are rejected before anything else. */
  lemma {:induction false} EmptyRejected()
    ensures ParseInvoiceDate(Text("")) == None
    ensures ParseInvoiceDate(Number(0)) == None
  {
  }

  /** No lower bound: day and month zero are accepted. */
  lemma {:induction false} ZeroDayAccepted()
    ensures ParseInvoiceDate(Text("0" + "/" + "0" + "/" + "2024")) == Some("2024-00-00")
  {
    DigitsPlain("2024");
    DigitDate("0", "0", "2024");
    ZeroDayKey();
  }

  lemma {:induction false} ZeroDayKey()
    ensures DateKey(ZFill("2024", 4), ZFill("0", 2), ZFill("0", 2)) == "2024-00-00"
  {
    var zero, year := "0", "2024";
    assert ZFill(zero, 2) == "00";
    assert ZFill(year, 4) == year;
  }

  /** Upper bounds: month 13, day 32 and a five-character year are refused. */
  lemma {:induction false} BoundsRejected()
    ensures ParseInvoiceDate(Text("1" + "/" + "13" + "/" + "2024")) == None
    ensures ParseInvoiceDate(Text("32" + "/" + "1" + "/" + "2024")) == None
    ensures ParseInvoiceDate(Text("1" + "/" + "1" + "/" + "20245")) == None
  {
    var one, thirteen, thirtyTwo := "1", "13", "32";
    assert DigitsValue(one) == 1;
    assert DigitsValue(thirteen) == 13 by { assert thirteen[..1] == one; }
    assert DigitsValue(thirtyTwo) == 32 by { assert thirtyTwo[..1] == "3"; }
    DigitsPlain("2024");
    DigitsPlain("20245");
    DigitDate(one, thirteen, "2024");
    DigitDate(thirtyTwo, one, "2024");
    DigitDate(one, one, "20245");
  }

  // ------------------------------------------------ the order of the keys

  /** String order on equal-length prefixes decides first. */
  lemma {:induction false} LexLessConcat(a1: string, b1: string, a2: string, b2: string)
    requires |a1| == |a2|
    ensures LexLess(a1 + b1, a2 + b2) <==> LexLess(a1, a2) || (a1 == a2 && LexLess(b1, b2))
  {
    if a1 == [] {
      assert a1 + b1 == b1 && a2 + b2 == b2;
    } else {
      assert (a1 + b1)[1..] == a1[1..] + b1 && (a2 + b2)[1..] == a2[1..] + b2;
      LexLessConcat(a1[1..], b1, a2[1..], b2);
      if a1[0] == a2[0] && a1[1..] == a2[1..] {
        assert a1 == [a1[0]] + a1[1..] && a2 == [a2[0]] + a2[1..];
      }
    }
  }

  /** A canonical key: four-digit year, two-digit month and day. */
  predicate Canonical(y: string, m: string, d: string) {
    |y| == 4 && |m| == 2 && |d| == 2 && IsDigits(y) && IsDigits(m) && IsDigits(d)
  }

  /** Keys compare field by field, year first. */
  lemma {:induction false} KeyOrderByFields(y1: string, m1: string, d1: string, y2: string, m2: string, d2: string)
    requires |y1| == |y2| && |m1| == |m2|
    ensures LexLess(DateKey(y1, m1, d1), DateKey(y2, m2, d2)) <==>
              (LexLess(y1, y2) || (y1 == y2 && (LexLess(m1, m2) || (m1 == m2 && LexLess(d1, d2)))))
  {
    assert DateKey(y1, m1, d1) == y1 + ("-" + (m1 + ("-" + d1)));
    assert DateKey(y2, m2, d2) == y2 + ("-" + (m2 + ("-" + d2)));
    LexLessConcat(y1, "-" + (m1 + ("-" + d1)), y2, "-" + (m2 + ("-" + d2)));
    DashPrefix(m1 + ("-" + d1), m2 + ("-" + d2));
    LexLessConcat(m1, "-" + d1, m2, "-" + d2);
    DashPrefix(d1, d2);
  }

  lemma {:induction false} DashPrefix(a: string, b: string)
    ensures LexLess("-" + a, "-" + b) <==> LexLess(a, b)
  {
    assert ("-" + a)[0] == '-' && ("-" + a)[1..] == a;
    assert ("-" + b)[0] == '-' && ("-" + b)[1..] == b;
  }

  /** On canonical keys, string order is calendar order: the keys compare
      as strings exactly as the eight-digit numbers `YYYYMMDD` compare, which
      is why the filter may compare keys as strings. */
  lemma {:induction false} KeyOrderIsChronological(y1: string, m1: string, d1: string, y2: string, m2: string, d2: string)
    requires Canonical(y1, m1, d1) && Canonical(y2, m2, d2)
    ensures IsDigits(y1 + m1 + d1) && IsDigits(y2 + m2 + d2)
    ensures LexLess(DateKey(y1, m1, d1), DateKey(y2, m2, d2))
        <==> DigitsValue(y1 + m1 + d1) < DigitsValue(y2 + m2 + d2)
  {
    KeyOrderByFields(y1, m1, d1, y2, m2, d2);
    assert y1 + m1 + d1 == y1 + (m1 + d1) && y2 + m2 + d2 == y2 + (m2 + d2);
    LexLessConcat(y1, m1 + d1, y2, m2 + d2);
    LexLessConcat(m1, d1, m2, d2);
    DigitsValueAppend(m1, d1);
    DigitsValueAppend(m2, d2);
    DigitsValueAppend(y1, m1 + d1);
    DigitsValueAppend(y2, m2 + d2);
    LexLessDigits(y1 + m1 + d1, y2 + m2 + d2);
  }
}
