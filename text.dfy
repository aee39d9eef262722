/** The handful of Python string primitives the reporting engine is built
    from: `str.strip()`, `str.split(sep)`, `str.replace(old, '')`,
    `str.zfill(width)`, `str.isdigit()`, `int()` restricted to integer
    literals, `str(n)`, the `{n:,}` thousands format and Python's
    code-point-wise string ordering. */
module Text {
  import opened Wrappers

  /** Python's `str.isspace()`: the characters `strip()`, `int()` and
      `float()` discard around their argument. */
  predicate IsSpace(c: char) {
    ('\t' <= c <= '\r') || ('\U{001C}' <= c <= '\U{001F}') || c == ' '
    || c == '\U{0085}' || c == '\U{00A0}' || c == '\U{1680}'
    || ('\U{2000}' <= c <= '\U{200A}') || c == '\U{2028}' || c == '\U{2029}'
    || c == '\U{202F}' || c == '\U{205F}' || c == '\U{3000}'
  }

  predicate IsDigit(c: char) {
    '0' <= c <= '9'
  }

  /** Every character is an ASCII digit; the empty string qualifies. */
  predicate IsDigits(s: string) {
    forall i :: 0 <= i < |s| ==> IsDigit(s[i])
  }

  /** Python's `str.isdigit()` (ASCII digits): non-empty and all digits. */
  predicate IsDigitString(s: string) {
    |s| > 0 && IsDigits(s)
  }

  /** The character `c` does not occur in `s`. */
  predicate Lacks(s: string, c: char) {
    forall i :: 0 <= i < |s| ==> s[i] != c
  }

  // ---------------------------------------------------------------- strip

  function StripLeft(s: string): (r: string)
    ensures |r| <= |s| && r == s[|s| - |r|..]
    ensures r == [] || !IsSpace(r[0])
    ensures forall i :: 0 <= i < |s| - |r| ==> IsSpace(s[i])
  {
    if s != [] && IsSpace(s[0]) then
      var r := StripLeft(s[1..]);
      assert r == s[|s| - |r|..] by {
        assert s[1..][|s| - 1 - |r|..] == s[|s| - |r|..];
      }
      assert forall i :: 1 <= i < |s| ==> s[i] == s[1..][i - 1];
      r
    else s
  }

  function StripRight(s: string): (r: string)
    ensures |r| <= |s| && r == s[..|r|]
    ensures r == [] || !IsSpace(r[|r| - 1])
    ensures forall i :: |r| <= i < |s| ==> IsSpace(s[i])
  {
    if s != [] && IsSpace(s[|s| - 1]) then StripRight(s[..|s| - 1]) else s
  }

  /** Python's `str.strip()`: what is left of `s` once the whitespace at
      both ends is dropped; it neither starts nor ends with whitespace. */
  function Strip(s: string): (r: string)
    ensures |r| <= |s|
    ensures r == [] || (!IsSpace(r[0]) && !IsSpace(r[|r| - 1]))
  {
    StripRight(StripLeft(s))
  }

  /** A string with no whitespace at either end is its own strip. */
  lemma {:induction false} StripUnchanged(s: string)
    requires s == [] || (!IsSpace(s[0]) && !IsSpace(s[|s| - 1]))
    ensures Strip(s) == s
  {
  }

/** Whitespace appended to a string is stripped off again. */
  lemma StripRightSpace(s: string, c: char)
    requires IsSpace(c)
    ensures StripRight(s + [c]) == StripRight(s)
  {
    assert (s + [c])[..|s|] == s;
  }

  /** A string that starts with a non-space keeps its left end. */
  lemma StripLeftKept(s: string)
    requires s != [] && !IsSpace(s[0])
    ensures StripLeft(s) == s
  {
  }

    lemma {:induction false} StripDigits(s: string)
    requires IsDigits(s)
    ensures Strip(s) == s
  {
    if s != [] {
      assert IsDigit(s[0]) && IsDigit(s[|s| - 1]);
      StripUnchanged(s);
    }
  }

  // ------------------------------------------------------ digits and int()

  function DigitValue(c: char): nat
    requires IsDigit(c)
  {
    (c as int - '0' as int) as nat
  }

  function Digit(d: nat): (c: char)
    requires d < 10
    ensures IsDigit(c) && DigitValue(c) == d
  {
    ('0' as int + d) as char
  }

  /** The number a run of decimal digits denotes (leading zeros allowed). */
  function DigitsValue(s: string): nat
    requires IsDigits(s)
  {
    if s == [] then 0 else DigitsValue(s[..|s| - 1]) * 10 + DigitValue(s[|s| - 1])
  }

  function Pow10(k: nat): (p: nat)
    ensures p >= 1
  {
    if k == 0 then 1 else 10 * Pow10(k - 1)
  }

  /** The value of a concatenation: the left part is shifted by the length
      of the right part. */
  lemma {:induction false} DigitsValueAppend(a: string, b: string)
    requires IsDigits(a) && IsDigits(b)
    ensures IsDigits(a + b)
    ensures DigitsValue(a + b) == DigitsValue(a) * Pow10(|b|) + DigitsValue(b)
  {
    if b == [] {
      assert a + b == a;
    } else {
      var b' := b[..|b| - 1];
      var d := DigitValue(b[|b| - 1]);
      assert (a + b)[..|a + b| - 1] == a + b';
      assert (a + b)[|a + b| - 1] == b[|b| - 1];
      DigitsValueAppend(a, b');
      var x: int, p: int, y: int := DigitsValue(a), Pow10(|b'|), DigitsValue(b');
      assert DigitsValue(a + b) == (x * p + y) * 10 + d;
      assert DigitsValue(b) == y * 10 + d;
      assert Pow10(|b|) == 10 * p;
      ShiftDigit(x, p, y, d);
    }
  }

  lemma ShiftDigit(x: int, p: int, y: int, d: int)
    ensures (x * p + y) * 10 + d == x * (10 * p) + (y * 10 + d)
  {
  }

  function Zeros(k: nat): (r: string)
    ensures |r| == k && IsDigits(r)
  {
    seq(k, _ => '0')
  }

  lemma {:induction false} ZerosValue(k: nat)
    ensures DigitsValue(Zeros(k)) == 0
  {
    if k > 0 {
      assert Zeros(k)[..k - 1] == Zeros(k - 1);
      ZerosValue(k - 1);
    }
  }

  /** Leading zeros do not change the value of a digit string. */
  lemma {:induction false} LeadingZeros(k: nat, s: string)
    requires IsDigits(s)
    ensures IsDigits(Zeros(k) + s) && DigitsValue(Zeros(k) + s) == DigitsValue(s)
  {
    DigitsValueAppend(Zeros(k), s);
    ZerosValue(k);
  }

  /** Python's `int(s)` (and `float(s)` where it yields a whole number):
      surrounding whitespace, an optional sign, then one or more digits. */
  function ParseInteger(s: string): (r: Option<int>)
    ensures r.Some? ==> exists k :: 0 <= k < |s| && IsDigit(s[k])
  {
    var t := Strip(s);
    if |t| > 0 && (t[0] == '+' || t[0] == '-') then
      var body := t[1..];
      if IsDigitString(body) then
        assert IsDigit(t[1]);
        var v: int := DigitsValue(body);
        Some(if t[0] == '-' then -v else v)
      else None
    else if IsDigitString(t) then
      assert IsDigit(t[0]);
      Some(DigitsValue(t))
    else None
  }

  lemma {:induction false} ParseDigits(s: string)
    requires IsDigitString(s)
    ensures ParseInteger(s) == Some(DigitsValue(s))
  {
    StripDigits(s);
  }

  // ------------------------------------------------------------- str(n)

  /** The canonical decimal spelling of a natural number, as `str(n)`. */
  function Decimal(n: nat): (r: string)
    ensures IsDigitString(r) && DigitsValue(r) == n
    ensures r[0] != '0' || n == 0
  {
    if n < 10 then [Digit(n)]
    else
      var r := Decimal(n / 10) + [Digit(n % 10)];
      assert r[..|r| - 1] == Decimal(n / 10);
      r
  }

  lemma {:induction false} DecimalShort(n: nat)
    requires n < 1000
    ensures |Decimal(n)| <= 3
  {
    if n >= 10 {
      DecimalShort(n / 10);
      if n >= 100 {
        assert n / 10 >= 10;
      } else {
        assert n / 10 < 10;
      }
    }
  }

  /** A number below `10^k` is spelled with at most `k` digits. */
  lemma {:induction false} DecimalLength(n: nat, k: nat)
    requires 1 <= k && n < Pow10(k)
    ensures |Decimal(n)| <= k
  {
    if n >= 10 {
      DecimalLength(n / 10, k - 1);
    }
  }

  /** Python's `str(n)` for an integer. */
  function IntToString(n: int): (r: string)
    ensures |r| > 0
  {
    if n < 0 then "-" + Decimal(-n) else Decimal(n)
  }

  /** `str(n)` is made of digits and at most a leading minus sign. */
  lemma {:induction false} IntToStringChars(n: int)
    ensures forall i :: 0 <= i < |IntToString(n)| ==> IsDigit(IntToString(n)[i]) || (i == 0 && n < 0 && IntToString(n)[i] == '-')
  {
    if n < 0 {
      var d := Decimal(-n);
      forall i | 0 <= i < |IntToString(n)| ensures IsDigit(IntToString(n)[i]) || (i == 0 && IntToString(n)[i] == '-') {
        if i > 0 { assert IntToString(n)[i] == d[i - 1]; }
      }
    }
  }

  /** Parsing what `str(n)` prints gives `n` back. */
  lemma {:induction false} IntToStringRoundTrip(n: int)
    ensures ParseInteger(IntToString(n)) == Some(n)
  {
    var s := IntToString(n);
    IntToStringEdges(n);
    StripUnchanged(s);
    if n < 0 {
      assert s[1..] == Decimal(-n);
    } else {
      assert s == Decimal(n);
    }
  }

  lemma {:induction false} IntToStringEdges(n: int)
    ensures !IsSpace(IntToString(n)[0]) && !IsSpace(IntToString(n)[|IntToString(n)| - 1])
    ensures IntToString(n)[0] == '-' <==> n < 0
  {
    var s := IntToString(n);
    var d := Decimal(if n < 0 then -n else n);
    assert IsDigit(d[0]) && IsDigit(d[|d| - 1]);
    assert s[|s| - 1] == d[|d| - 1];
  }

  // -------------------------------------------------------------- zfill

  /** Python's `s.zfill(w)`: left-pad with `0` to width `w`, keeping a
      leading sign in front of the padding. */
  function ZFill(s: string, w: nat): (r: string)
    ensures |r| == if |s| >= w then |s| else w
  {
    if |s| >= w then s
    else if |s| > 0 && (s[0] == '+' || s[0] == '-') then [s[0]] + Zeros(w - |s|) + s[1..]
    else Zeros(w - |s|) + s
  }

  /** Padding a digit string keeps it a digit string of the same value. */
  lemma {:induction false} ZFillDigits(s: string, w: nat)
    requires IsDigits(s)
    ensures IsDigits(ZFill(s, w)) && DigitsValue(ZFill(s, w)) == DigitsValue(s)
  {
    if |s| < w {
      LeadingZeros(w - |s|, s);
    }
  }

  /** Python's `f"{n:0{w}d}"` for a natural number. */
  function PadNumber(n: nat, w: nat): (r: string)
    ensures IsDigitString(r) && |r| >= w && DigitsValue(r) == n
  {
    ZFillDigits(Decimal(n), w);
    ZFill(Decimal(n), w)
  }

  // ----------------------------------------------------- replace('x', '')

  /** Python's `s.replace(c, '')` for a one-character pattern. */
  function RemoveChar(s: string, c: char): (r: string)
    ensures |r| <= |s| && Lacks(r, c)
  {
    if s == [] then [] else (if s[0] == c then [] else [s[0]]) + RemoveChar(s[1..], c)
  }

  lemma {:induction false} RemoveCharConcat(a: string, b: string, c: char)
    ensures RemoveChar(a + b, c) == RemoveChar(a, c) + RemoveChar(b, c)
  {
    if a != [] {
      assert (a + b)[1..] == a[1..] + b;
      RemoveCharConcat(a[1..], b, c);
    } else {
      assert a + b == b;
    }
  }

  lemma {:induction false} RemoveCharAbsent(s: string, c: char)
    requires Lacks(s, c)
    ensures RemoveChar(s, c) == s
  {
    if s != [] {
      RemoveCharAbsent(s[1..], c);
    }
  }

  /** Deleting one character keeps every other character absent. */
  lemma {:induction false} RemoveCharKeepsLacks(s: string, c: char, x: char)
    requires Lacks(s, x)
    ensures Lacks(RemoveChar(s, c), x)
  {
    if s != [] {
      RemoveCharKeepsLacks(s[1..], c, x);
      assert s[0] != x;
    }
  }

  /** Python's `s.replace(pat, '')`: occurrences are found left to right
      and do not overlap. */
  function RemoveAll(s: string, pat: string): (r: string)
    requires |pat| > 0
    ensures |r| <= |s|
    decreases |s|
  {
    if |s| >= |pat| && s[..|pat|] == pat then RemoveAll(s[|pat|..], pat)
    else if s == [] then []
    else [s[0]] + RemoveAll(s[1..], pat)
  }

  /** A string that never contains the pattern's first character is left
      alone, and the pattern itself glued on the right disappears. */
  lemma {:induction false} RemoveAllSuffix(s: string, pat: string)
    requires |pat| > 0 && Lacks(s, pat[0])
    ensures RemoveAll(s + pat, pat) == s
  {
    if s == [] {
      assert pat[..|pat|] == pat;
      assert RemoveAll(pat[|pat|..], pat) == [];
    } else {
      var t := s + pat;
      assert t[..|pat|][0] == s[0] != pat[0];
      assert t[1..] == s[1..] + pat;
      RemoveAllSuffix(s[1..], pat);
    }
  }

  // -------------------------------------------------------------- split

  /** Python's `s.split(c)` for a one-character separator: the pieces
      between separators, at least one (possibly empty) piece. */
  function Split(s: string, c: char): (r: seq<string>)
    ensures |r| >= 1
    ensures forall i :: 0 <= i < |r| ==> Lacks(r[i], c)
  {
    if s == [] then [[]]
    else
      var rest := Split(s[1..], c);
      if s[0] == c then [[]] + rest else [[s[0]] + rest[0]] + rest[1..]
  }

  /** A string without the separator is a single piece. */
  lemma {:induction false} SplitNone(s: string, c: char)
    requires Lacks(s, c)
    ensures Split(s, c) == [s]
  {
    if s != [] {
      SplitNone(s[1..], c);
      assert [s[0]] + s[1..] == s;
    }
  }

  /** Splitting at a separator after a separator-free prefix. */
  lemma {:induction false} SplitAt(a: string, b: string, c: char)
    requires Lacks(a, c)
    ensures Split(a + [c] + b, c) == [a] + Split(b, c)
  {
    if a == [] {
      assert ([c] + b)[1..] == b;
    } else {
      assert (a + [c] + b)[1..] == a[1..] + [c] + b;
      SplitAt(a[1..], b, c);
      assert [a[0]] + a[1..] == a;
    }
  }

  /** The first piece of a split is the longest separator-free prefix. */
  lemma {:induction false} SplitFirst(s: string, c: char)
    ensures |Split(s, c)[0]| <= |s| && Split(s, c)[0] == s[..|Split(s, c)[0]|]
    ensures |Split(s, c)[0]| < |s| ==> s[|Split(s, c)[0]|] == c
  {
    if s != [] {
      SplitFirst(s[1..], c);
    }
  }

  // ---------------------------------------------- code-point string order

  /** Python's `a < b` on strings: lexicographic on code points, a proper
      prefix coming first. */
  predicate LexLess(a: string, b: string) {
    if a == [] then b != []
    else if b == [] then false
    else a[0] < b[0] || (a[0] == b[0] && LexLess(a[1..], b[1..]))
  }

  /** Python's `a <= b` on strings. */
  predicate LexLe(a: string, b: string) {
    a == b || LexLess(a, b)
  }

  lemma {:induction false} LexLessIrreflexive(a: string)
    ensures !LexLess(a, a)
  {
    if a != [] {
      LexLessIrreflexive(a[1..]);
    }
  }

  lemma {:induction false} LexLessAsymmetric(a: string, b: string)
    ensures !(LexLess(a, b) && LexLess(b, a))
  {
    if a != [] && b != [] && a[0] == b[0] {
      LexLessAsymmetric(a[1..], b[1..]);
    }
  }

  lemma {:induction false} LexLessTotal(a: string, b: string)
    ensures a == b || LexLess(a, b) || LexLess(b, a)
  {
    if a != [] && b != [] && a[0] == b[0] {
      LexLessTotal(a[1..], b[1..]);
      if a[1..] == b[1..] {
        assert a == [a[0]] + a[1..] && b == [b[0]] + b[1..];
      }
    }
  }

  lemma {:induction false} LexLessTransitive(a: string, b: string, c: string)
    requires LexLess(a, b) && LexLess(b, c)
    ensures LexLess(a, c)
  {
    if a != [] && a[0] == b[0] && b[0] == c[0] {
      LexLessTransitive(a[1..], b[1..], c[1..]);
    }
  }

  /** Strings that agree up to position `k` and differ there compare as
      their characters at `k` do. */
  lemma {:induction false} LexLessAt(a: string, b: string, k: nat)
    requires k < |a| && k < |b| && a[..k] == b[..k] && a[k] < b[k]
    ensures LexLess(a, b) && !LexLe(b, a)
  {
    if k > 0 {
      assert a[0] == a[..k][0] && b[0] == b[..k][0];
      assert a[1..][..k - 1] == a[..k][1..] && b[1..][..k - 1] == b[..k][1..];
      LexLessAt(a[1..], b[1..], k - 1);
    }
    LexLessAsymmetric(a, b);
  }

  /** `<=` on strings is a total order: the property that lets the date
      filter and the period sort use it. */
  lemma {:induction false} LexLeTotalOrder(a: string, b: string, c: string)
    ensures LexLe(a, b) || LexLe(b, a)
    ensures LexLe(a, b) && LexLe(b, a) ==> a == b
    ensures LexLe(a, b) && LexLe(b, c) ==> LexLe(a, c)
  {
    LexLessTotal(a, b);
    LexLessAsymmetric(a, b);
    if LexLess(a, b) && LexLess(b, c) {
      LexLessTransitive(a, b, c);
    }
  }

  /** Equal-length digit strings compare as strings exactly as their values
      compare as numbers: why zero padding makes string order chronological. */
  lemma {:induction false} LexLessDigits(a: string, b: string)
    requires IsDigits(a) && IsDigits(b) && |a| == |b|
    ensures LexLess(a, b) <==> DigitsValue(a) < DigitsValue(b)
  {
    if a != [] {
      LeadingDigit(a);
      LeadingDigit(b);
      LexLessDigits(a[1..], b[1..]);
      var p := Pow10(|a| - 1);
      if a[0] < b[0] {
        LeadingDigitOrder(DigitValue(a[0]), DigitValue(b[0]), DigitsValue(a[1..]), DigitsValue(b[1..]), p);
      } else if b[0] < a[0] {
        LeadingDigitOrder(DigitValue(b[0]), DigitValue(a[0]), DigitsValue(b[1..]), DigitsValue(a[1..]), p);
      }
    }
  }

  /** A digit string is its first digit, shifted, plus the value of the rest. */
  lemma {:induction false} LeadingDigit(s: string)
    requires IsDigits(s) && s != []
    ensures DigitsValue(s) == DigitValue(s[0]) * Pow10(|s| - 1) + DigitsValue(s[1..])
    ensures DigitsValue(s[1..]) < Pow10(|s| - 1)
  {
    DigitsValueAppend([s[0]], s[1..]);
    assert [s[0]] + s[1..] == s;
    assert DigitsValue([s[0]]) == DigitValue(s[0]) by {
      assert [s[0]][..0] == [];
    }
    DigitsBound(s[1..]);
  }

  lemma {:induction false} LeadingDigitOrder(da: nat, db: nat, x: nat, y: nat, p: nat)
    requires da < db && x < p && y < p
    ensures da * p + x < db * p + y
  {
    assert (da + 1) * p <= db * p;
  }

  lemma {:induction false} DigitsBound(s: string)
    requires IsDigits(s)
    ensures DigitsValue(s) < Pow10(|s|)
  {
    if s != [] {
      DigitsBound(s[..|s| - 1]);
    }
  }

  // ------------------------------------------------------ f"{n:,}" format

  /** Python's `f"{n:,}"` for a natural number: digits in groups of three
      separated by commas. */
  function Thousands(n: nat): (r: string)
    ensures |r| > 0
    decreases n
  {
    if n < 1000 then Decimal(n)
    else Thousands(n / 1000) + "," + ZFill(Decimal(n % 1000), 3)
  }

  /** Python's `f"{n:,}"` for any integer. */
  function SignedThousands(n: int): (r: string)
    ensures |r| > 0
  {
    if n < 0 then "-" + Thousands(-n) else Thousands(n)
  }

  /** Removing the group separators from the formatted number leaves the
      digits of the number itself. */
  lemma {:induction false} ThousandsDigits(n: nat)
    ensures IsDigitString(RemoveChar(Thousands(n), ','))
    ensures DigitsValue(RemoveChar(Thousands(n), ',')) == n
    decreases n
  {
    if n < 1000 {
      RemoveCharAbsent(Decimal(n), ',');
    } else {
      ThousandsDigits(n / 1000);
      ThousandsStep(n);
      GroupedValue(RemoveChar(Thousands(n / 1000), ','), n);
    }
  }

  /** The digits of `n / 1000` followed by the group of `n % 1000` spell `n`. */
  lemma GroupedValue(d: string, n: nat)
    requires n >= 1000 && IsDigitString(d) && DigitsValue(d) == n / 1000
    ensures IsDigitString(d + Group(n % 1000))
    ensures DigitsValue(d + Group(n % 1000)) == n
  {
    var lo := Group(n % 1000);
    DigitsValueAppend(d, lo);
    var q: int, r: int, p: int := n / 1000, n % 1000, Pow10(|lo|);
    assert p == 1000;
    assert DigitsValue(d + lo) == q * p + r;
  }

  /** The formatted number holds only digits and commas. */
  lemma {:induction false} ThousandsChars(n: nat)
    ensures forall i :: 0 <= i < |Thousands(n)| ==> Thousands(n)[i] == ',' || IsDigit(Thousands(n)[i])
    decreases n
  {
    if n >= 1000 {
      ThousandsChars(n / 1000);
      var hi, lo := Thousands(n / 1000), Group(n % 1000);
      var t := hi + "," + lo;
      assert Thousands(n) == t;
      forall i | 0 <= i < |t| ensures t[i] == ',' || IsDigit(t[i]) {
        if i < |hi| {
          assert t[i] == hi[i];
        } else if i > |hi| {
          assert t[i] == lo[i - |hi| - 1];
        }
      }
    }
  }

  /** The three-digit group printed after a comma. */
  function Group(r: nat): (g: string)
    requires r < 1000
    ensures |g| == 3 && IsDigits(g) && DigitsValue(g) == r
  {
    ZFillDigits(Decimal(r), 3);
    DecimalShort(r);
    ZFill(Decimal(r), 3)
  }

  lemma {:induction false} ThousandsStep(n: nat)
    requires n >= 1000
    ensures Thousands(n) == Thousands(n / 1000) + "," + Group(n % 1000)
    ensures RemoveChar(Thousands(n), ',') == RemoveChar(Thousands(n / 1000), ',') + Group(n % 1000)
  {
    var hi := Thousands(n / 1000);
    var lo := Group(n % 1000);
    assert Thousands(n) == hi + "," + lo;
    RemoveCharAbsent(lo, ',');
    RemoveCharSeparator(hi, lo);
  }

  lemma {:induction false} RemoveCharSeparator(hi: string, lo: string)
    requires RemoveChar(lo, ',') == lo
    ensures RemoveChar(hi + "," + lo, ',') == RemoveChar(hi, ',') + lo
  {
    RemoveCharConcat(hi + ",", lo, ',');
    RemoveCharConcat(hi, ",", ',');
    RemoveCharAbsent([], ',');
    assert RemoveChar(",", ',') == [] + RemoveChar([], ',');
  }

}
