/** The amount parser `_safe_parse_amount`: reads a money cell such as
    `1,234,567 đ` or `500` as a whole number of đồng, and yields 0 for
    anything it cannot read. It never fails. */
module Amounts {
  import opened Wrappers
  import opened Text
  import opened Sheet

  /** The currency sign `đ` (U+0111) that the sheet appends to amounts. */
  const Dong: char := '\U{0111}'

  /** The text left once the currency sign and both grouping characters are
      deleted from the stripped value. */
  function Cleaned(t: string): string {
    RemoveChar(RemoveChar(RemoveChar(t, Dong), ','), '.')
  }

  /** `_safe_parse_amount(value)`, the Python float result modelled as the
      whole number it holds. */
  function SafeParseAmount(c: Cell): (r: int)
    ensures !Truthy(c) ==> r == 0
  {
    if !Truthy(c) then 0
    else
      var cleaned := Cleaned(Strip(Str(c)));
      if cleaned == [] then 0
      else match ParseInteger(cleaned)
        case None => 0
        case Some(v) => v
  }

  /** The parsed `Tổng Thanh Toán` of one invoice, as every report reads
      it. */
  function Amount(inv: Invoice): int {
    SafeParseAmount(inv.total)
  }

  /** The cleaning step works character by character. */
  lemma {:induction false} CleanedConcat(a: string, b: string)
    ensures Cleaned(a + b) == Cleaned(a) + Cleaned(b)
  {
    RemoveCharConcat(a, b, Dong);
    RemoveCharConcat(RemoveChar(a, Dong), RemoveChar(b, Dong), ',');
    RemoveCharConcat(RemoveChar(RemoveChar(a, Dong), ','), RemoveChar(RemoveChar(b, Dong), ','), '.');
  }

  /** Text without the currency sign and grouping characters is kept. */
  lemma {:induction false} CleanedPlain(s: string)
    requires Lacks(s, Dong) && Lacks(s, ',') && Lacks(s, '.')
    ensures Cleaned(s) == s
  {
    RemoveCharAbsent(s, Dong);
    RemoveCharAbsent(s, ',');
    RemoveCharAbsent(s, '.');
  }

  /** No character of the string is an ASCII digit. */
  predicate NoDigit(s: string) {
    forall i :: 0 <= i < |s| ==> !IsDigit(s[i])
  }

  lemma {:induction false} RemoveCharNoDigit(s: string, c: char)
    requires NoDigit(s)
    ensures NoDigit(RemoveChar(s, c))
  {
    if s != [] {
      RemoveCharNoDigit(s[1..], c);
    }
  }

  lemma {:induction false} StripNoDigit(s: string)
    requires NoDigit(s)
    ensures NoDigit(Strip(s))
  {
    var l := StripLeft(s);
    assert NoDigit(l) by {
      forall i | 0 <= i < |l| ensures !IsDigit(l[i]) {
        assert l[i] == s[|s| - |l| + i];
      }
    }
  }

  /** Text without a single digit reads as 0, whatever else it holds. */
  lemma {:induction false} NoDigitsGiveZero(s: string)
    requires NoDigit(s)
    ensures SafeParseAmount(Text(s)) == 0
  {
    if s != [] {
      StripNoDigit(s);
      var t := Strip(s);
      RemoveCharNoDigit(t, Dong);
      RemoveCharNoDigit(RemoveChar(t, Dong), ',');
      RemoveCharNoDigit(RemoveChar(RemoveChar(t, Dong), ','), '.');
    }
  }

  /** Whatever the cleaned text, when `float()` cannot read it the result
      is 0: the exception is swallowed. */
  lemma {:induction false} UnparsableAmount(s: string)
    requires ParseInteger(Cleaned(Strip(s))).None?
    ensures SafeParseAmount(Text(s)) == 0
  {
  }

  /** Digits followed by a character that is neither a digit, whitespace
      nor one of the deleted characters cannot be read, so they give 0:
      `12a` is 0. */
  lemma {:induction false} TrailingSymbol(a: string, x: char)
    requires IsDigitString(a) && !IsDigit(x) && !IsSpace(x) && x != Dong && x != ',' && x != '.'
    ensures SafeParseAmount(Text(a + [x])) == 0
  {
    var s := a + [x];
    assert s[0] == a[0] && IsDigit(a[0]);
    assert s[|s| - 1] == x;
    StripUnchanged(s);
    assert Cleaned(s) == s by {
      DigitsClean(a);
      CleanedPlain([x]);
      CleanedConcat(a, [x]);
    }
    assert !IsDigit(s[|s| - 1]);
    UnparsableAmount(s);
  }

  /** A string of digits and a leading minus sign loses nothing to the
      cleaning step. */
  lemma {:induction false} CleanedSigned(n: int)
    ensures Cleaned(IntToString(n)) == IntToString(n)
    ensures Strip(IntToString(n)) == IntToString(n)
  {
    var s := IntToString(n);
    IntToStringChars(n);
    CleanedPlain(s);
    assert IsDigit(s[|s| - 1]);
    assert IsDigit(s[0]) || s[0] == '-';
    StripUnchanged(s);
  }

  /** An integer cell is read as itself, and so is the text `str(n)`: the
      amount `500` is 500. */
  lemma {:induction false} WholeNumbers(n: int)
    ensures SafeParseAmount(Number(n)) == n
    ensures SafeParseAmount(Text(IntToString(n))) == n
  {
    CleanedSigned(n);
    IntToStringRoundTrip(n);
    if n == 0 {
      assert Truthy(Text(IntToString(n)));
    }
  }

  /** What the ledger writes, `f"{n:,} đ"`, is read back as `n`; in
      particular `1,234,567 đ` is 1234567. */
  lemma {:induction false} FormattedAmount(n: nat)
    ensures SafeParseAmount(Text(Thousands(n) + " " + [Dong])) == n
  {
    ThousandsDigits(n);
    ThousandsChars(n);
    GroupedAmount(Thousands(n));
  }

  /** Digits and commas followed by ` đ` read as the digits alone. */
  lemma {:induction false} GroupedAmount(t: string)
    requires t != [] && forall i :: 0 <= i < |t| ==> t[i] == ',' || IsDigit(t[i])
    requires IsDigitString(RemoveChar(t, ','))
    ensures SafeParseAmount(Text(t + " " + [Dong])) == DigitsValue(RemoveChar(t, ','))
  {
    var s, d := t + " " + [Dong], RemoveChar(t, ',');
    assert s[0] == t[0] && (t[0] == ',' || IsDigit(t[0]));
    assert s[|s| - 1] == Dong;
    GroupedSuffixClean(t);
    TrailingSpace(d);
    AmountOf(s, d + " ", DigitsValue(d));
  }

  /** The amount of a text with no outer whitespace whose cleaned form
      parses. */
  lemma {:induction false} AmountOf(s: string, c: string, v: int)
    requires s != [] && !IsSpace(s[0]) && !IsSpace(s[|s| - 1])
    requires Cleaned(s) == c && c != [] && ParseInteger(c) == Some(v)
    ensures SafeParseAmount(Text(s)) == v
  {
    StripUnchanged(s);
  }

  lemma {:induction false} GroupedSuffixClean(t: string)
    requires forall i :: 0 <= i < |t| ==> t[i] == ',' || IsDigit(t[i])
    ensures Cleaned(t + " " + [Dong]) == RemoveChar(t, ',') + " "
  {
    var u := " " + [Dong];
    assert Cleaned(u) == " " by {
      CleanedConcat(" ", [Dong]);
      SpaceClean();
      DongClean();
    }
    calc {
      Cleaned(t + " " + [Dong]);
      { assert t + " " + [Dong] == t + u; }
      Cleaned(t + u);
      { CleanedConcat(t, u); }
      Cleaned(t) + Cleaned(u);
      { GroupedClean(t); }
      RemoveChar(t, ',') + " ";
    }
  }

  /** Text of digits and commas cleans to its digits. */
  lemma {:induction false} GroupedClean(t: string)
    requires forall i :: 0 <= i < |t| ==> t[i] == ',' || IsDigit(t[i])
    ensures Cleaned(t) == RemoveChar(t, ',')
  {
    forall i | 0 <= i < |t| ensures t[i] != Dong && t[i] != '.' {
      assert t[i] == ',' || IsDigit(t[i]);
    }
    RemoveCharAbsent(t, Dong);
    var d := RemoveChar(t, ',');
    RemoveCharKeepsLacks(t, ',', '.');
    RemoveCharAbsent(d, '.');
  }

  lemma {:induction false} SpaceClean()
    ensures Cleaned(" ") == " "
  {
    assert RemoveChar(" ", Dong) == " ";
    assert RemoveChar(" ", ',') == " ";
    assert RemoveChar(" ", '.') == " ";
  }

  lemma {:induction false} DongClean()
    ensures Cleaned([Dong]) == []
  {
    assert RemoveChar([Dong], Dong) == [];
  }

  lemma {:induction false} PointClean()
    ensures Cleaned(".") == []
  {
    assert RemoveChar(".", Dong) == ".";
    assert RemoveChar(".", ',') == ".";
    assert RemoveChar(".", '.') == [];
  }

  lemma {:induction false} TrailingSpace(d: string)
    requires IsDigitString(d)
    ensures ParseInteger(d + " ") == Some(DigitsValue(d))
  {
    StripTrailingSpace(d);
    assert IsDigit(d[0]);
  }

  lemma {:induction false} StripTrailingSpace(d: string)
    requires IsDigitString(d)
    ensures Strip(d + " ") == d
  {
    var s := d + [' '];
    assert s[0] == d[0] && IsDigit(d[0]);
    StripLeftKept(s);
    StripRightSpace(d, ' ');
    assert IsDigit(d[|d| - 1]);
    StripUnchanged(d);
  }


  /** Grouping characters are deleted, not read as a decimal point: digits
      either side of a `.` run together, so `12.5` reads as 125. */
  lemma {:induction false} PointsRunTogether(a: string, b: string)
    requires IsDigitString(a) && IsDigits(b)
    ensures IsDigits(a + b)
    ensures SafeParseAmount(Text(a + "." + b)) == DigitsValue(a + b)
  {
    DigitsJoin(a, b);
    PointText(a, b);
    ParseDigits(a + b);
    AmountOf(a + "." + b, a + b, DigitsValue(a + b));
  }

  lemma {:induction false} PointText(a: string, b: string)
    requires IsDigitString(a) && IsDigits(b)
    ensures !IsSpace((a + "." + b)[0]) && !IsSpace((a + "." + b)[|a + "." + b| - 1])
    ensures Cleaned(a + "." + b) == a + b
  {
    var s := a + "." + b;
    DigitsClean(a);
    DigitsClean(b);
    assert s[0] == a[0] && IsDigit(a[0]);
    assert !IsSpace(s[|s| - 1]) by {
      if b != [] { assert s[|s| - 1] == b[|b| - 1] && IsDigit(b[|b| - 1]); }
    }
    CleanedAroundPoint(a, b);
  }

  lemma {:induction false} CleanedAroundPoint(a: string, b: string)
    requires Cleaned(a) == a && Cleaned(b) == b
    ensures Cleaned(a + "." + b) == a + b
  {
    var p := a + ".";
    assert Cleaned(p) == a by {
      CleanedConcat(a, ".");
      PointClean();
    }
    CleanedConcat(p, b);
  }

  lemma {:induction false} DigitsJoin(a: string, b: string)
    requires IsDigits(a) && IsDigits(b)
    ensures IsDigits(a + b)
  {
    forall i | 0 <= i < |a + b| ensures IsDigit((a + b)[i]) {
      if i < |a| { assert (a + b)[i] == a[i]; } else { assert (a + b)[i] == b[i - |a|]; }
    }
  }

  lemma {:induction false} DigitsClean(s: string)
    requires IsDigits(s)
    ensures Cleaned(s) == s
  {
    forall i | 0 <= i < |s| ensures s[i] != Dong && s[i] != ',' && s[i] != '.' {
      assert IsDigit(s[i]);
    }
    CleanedPlain(s);
  }

  /** Empty and zero values read as 0. */
  lemma {:induction false} EmptyAmounts()
    ensures SafeParseAmount(Text("")) == 0
    ensures SafeParseAmount(Number(0)) == 0
  {
  }
}
