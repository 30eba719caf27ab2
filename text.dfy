/**
 * The few Python string operations the business rules depend on: `str(int)`,
 * `int(str)`, `float(str)` for plain decimals, `str.zfill`, `str.split`,
 * `str.strip`, `str.lower` and the `in` substring test.  Strings are `seq<char>`.
 */
module Text {
  import opened Wrappers

  predicate IsDigit(c: char) { '0' <= c <= '9' }

  predicate AllDigits(s: string) { forall i :: 0 <= i < |s| ==> IsDigit(s[i]) }

  function DigitChar(d: nat): (c: char)
    requires d < 10
    ensures IsDigit(c)
  {
    (d + '0' as int) as char
  }

  function DigitValue(c: char): (d: nat)
    requires IsDigit(c)
    ensures d < 10 && DigitChar(d) == c
  {
    c as int - '0' as int
  }

  /** Python's `str(n)` for a non-negative integer: decimal digits, no leading zero. */
  function DecimalString(n: nat): (s: string)
    ensures |s| >= 1 && AllDigits(s)
    ensures n > 0 ==> s[0] != '0'
  {
    if n < 10 then [DigitChar(n)] else DecimalString(n / 10) + [DigitChar(n % 10)]
  }

  /** Python's `str(n)` for any integer. */
  function IntString(n: int): string {
    if n < 0 then "-" + DecimalString(-n) else DecimalString(n)
  }

  /** The number a string of decimal digits denotes (leading zeros allowed). */
  function DigitsValue(s: string): nat
    requires AllDigits(s)
  {
    if s == [] then 0 else DigitsValue(s[..|s| - 1]) * 10 + DigitValue(s[|s| - 1])
  }

  function Pow10(n: nat): (p: nat)
    ensures p >= 1
  {
    if n == 0 then 1 else 10 * Pow10(n - 1)
  }

  /** Reading back what `str` printed gives the number again. */
  lemma {:induction false} DecimalStringValue(n: nat)
    ensures DigitsValue(DecimalString(n)) == n
  {
    if n >= 10 {
      var d := DecimalString(n / 10);
      assert (d + [DigitChar(n % 10)])[..|d|] == d;
      DecimalStringValue(n / 10);
    }
  }

  function Zeros(n: nat): (z: string)
    ensures |z| == n && forall i :: 0 <= i < n ==> z[i] == '0'
  {
    seq(n, i => '0')
  }

  /** Leading zeros do not change the value of a digit string. */
  lemma {:induction false} LeadingZerosValue(k: nat, s: string)
    requires AllDigits(s)
    ensures AllDigits(Zeros(k) + s) && DigitsValue(Zeros(k) + s) == DigitsValue(s)
  {
    if s == [] {
      assert Zeros(k) + s == Zeros(k);
      ZerosValue(k);
    } else {
      var t := s[..|s| - 1];
      assert (Zeros(k) + s)[..|Zeros(k) + s| - 1] == Zeros(k) + t;
      LeadingZerosValue(k, t);
    }
  }

  lemma {:induction false} ZerosValue(k: nat)
    ensures AllDigits(Zeros(k)) && DigitsValue(Zeros(k)) == 0
  {
    if k > 0 {
      assert Zeros(k)[..k - 1] == Zeros(k - 1);
      ZerosValue(k - 1);
    }
  }

  /**
   * Python's `s.zfill(width)`: pads with '0' on the left up to `width`
   * characters, keeping a leading sign in front of the padding.
   */
  function ZFill(s: string, width: int): (r: string)
    ensures |r| == if |s| >= width then |s| else width
    ensures |s| < width && (s == [] || (s[0] != '+' && s[0] != '-')) ==> r == Zeros(width - |s|) + s
    ensures |s| < width && s != [] && (s[0] == '+' || s[0] == '-') ==> r == [s[0]] + Zeros(width - |s|) + s[1..]
    ensures |s| >= width ==> r == s
  {
    if |s| >= width then s
    else
      var fill := Zeros(width - |s|);
      if |s| > 0 && (s[0] == '+' || s[0] == '-') then [s[0]] + fill + s[1..] else fill + s
  }

  /** Padding a digit string with `zfill` keeps its digits and its value. */
  lemma ZFillDigitsValue(s: string, width: int)
    requires AllDigits(s)
    ensures AllDigits(ZFill(s, width)) && DigitsValue(ZFill(s, width)) == DigitsValue(s)
  {
    if |s| < width {
      LeadingZerosValue(width - |s|, s);
    }
  }

  /** Python's `s.split(sep)` with a one-character separator: never empty, empty parts kept. */
  function Split(s: string, sep: char): (parts: seq<string>)
    ensures |parts| >= 1
    ensures forall i :: 0 <= i < |parts| ==> sep !in parts[i]
  {
    if s == [] then [""]
    else
      var rest := Split(s[1..], sep);
      if s[0] == sep then [""] + rest else [[s[0]] + rest[0]] + rest[1..]
  }

  /** Python's `sep.join(parts)`. */
  function Join(parts: seq<string>, sep: char): string
    requires |parts| >= 1
  {
    if |parts| == 1 then parts[0] else parts[0] + [sep] + Join(parts[1..], sep)
  }

  /** Joining the parts of a split restores the string. */
  lemma {:induction false} JoinSplit(s: string, sep: char)
    ensures Join(Split(s, sep), sep) == s
  {
    if s != [] {
      var rest := Split(s[1..], sep);
      JoinSplit(s[1..], sep);
      if s[0] != sep {
        var parts := [[s[0]] + rest[0]] + rest[1..];
        if |rest| > 1 {
          assert parts[1..] == rest[1..];
        }
      }
    }
  }

  lemma {:induction false} SplitNoSeparator(a: string, sep: char)
    requires sep !in a
    ensures Split(a, sep) == [a]
  {
    if a != [] {
      assert a[0] != sep;
      SplitNoSeparator(a[1..], sep);
      assert [a[0]] + a[1..] == a;
    }
  }

  lemma {:induction false} SplitAtSeparator(a: string, sep: char, rest: string)
    requires sep !in a
    ensures Split(a + [sep] + rest, sep) == [a] + Split(rest, sep)
  {
    if a == [] {
      assert a + [sep] + rest == [sep] + rest;
      assert ([sep] + rest)[1..] == rest;
    } else {
      var s := a + [sep] + rest;
      assert s[1..] == a[1..] + [sep] + rest;
      assert s[0] == a[0] && a[0] != sep;
      SplitAtSeparator(a[1..], sep, rest);
      assert [a[0]] + a[1..] == a;
    }
  }

  /** Splitting parts joined by a separator they do not contain gives the parts back. */
  lemma {:induction false} SplitJoin(parts: seq<string>, sep: char)
    requires |parts| >= 1
    requires forall i :: 0 <= i < |parts| ==> sep !in parts[i]
    ensures Split(Join(parts, sep), sep) == parts
  {
    if |parts| == 1 {
      SplitNoSeparator(parts[0], sep);
    } else {
      SplitJoin(parts[1..], sep);
      SplitAtSeparator(parts[0], sep, Join(parts[1..], sep));
      assert [parts[0]] + parts[1..] == parts;
    }
  }

  /**
   * The characters Python's `str.isspace` accepts, which `strip()` removes:
   * the ASCII blanks and separators 0x09-0x0D and 0x1C-0x20, and the Unicode
   * spaces and line/paragraph separators.
   */
  predicate IsSpace(c: char) {
    || '\U{09}' <= c <= '\U{0D}'
    || '\U{1C}' <= c <= '\U{20}'
    || c == '\U{85}' || c == '\U{A0}' || c == '\U{1680}'
    || '\U{2000}' <= c <= '\U{200A}'
    || c == '\U{2028}' || c == '\U{2029}' || c == '\U{202F}' || c == '\U{205F}' || c == '\U{3000}'
  }

  /**
   * The whitespace `int()` and `float()` skip around a number: the C-locale
   * blanks 0x09-0x0D and 0x20, and the non-ASCII `str.isspace` characters,
   * which they first turn into ' '.  The ASCII separators 0x1C-0x1F are not
   * among them, although `str.isspace` accepts them.
   */
  predicate IsNumberSpace(c: char) {
    IsSpace(c) && !('\U{1C}' <= c <= '\U{1F}')
  }

  /** Whitespace as `strip()` sees it, or, when `numeric`, as `int()` and `float()` do. */
  predicate IsBlank(c: char, numeric: bool) {
    if numeric then IsNumberSpace(c) else IsSpace(c)
  }

  function StripLeft(s: string, numeric: bool): (r: string)
    ensures |r| <= |s| && r == s[|s| - |r|..]
    ensures r == [] || !IsBlank(r[0], numeric)
    ensures forall k :: 0 <= k < |s| - |r| ==> IsBlank(s[k], numeric)
  {
    if s != [] && IsBlank(s[0], numeric) then StripLeft(s[1..], numeric) else s
  }

  function StripRight(s: string, numeric: bool): (r: string)
    ensures |r| <= |s| && r == s[..|r|]
    ensures r == [] || !IsBlank(r[|r| - 1], numeric)
    ensures forall k :: |r| <= k < |s| ==> IsBlank(s[k], numeric)
  {
    if s != [] && IsBlank(s[|s| - 1], numeric) then StripRight(s[..|s| - 1], numeric) else s
  }

  /** Python's `s.strip()`: the middle of `s` between its leading and trailing whitespace. */
  function Strip(s: string): (r: string)
    ensures |r| <= |s|
    ensures r == [] || (!IsSpace(r[0]) && !IsSpace(r[|r| - 1]))
  {
    StripRight(StripLeft(s, false), false)
  }

  /** The numeral `int()` and `float()` read: `s` without the whitespace they skip at either end. */
  function NumberStrip(s: string): (r: string)
    ensures |r| <= |s|
    ensures r == [] || (!IsNumberSpace(r[0]) && !IsNumberSpace(r[|r| - 1]))
  {
    StripRight(StripLeft(s, true), true)
  }

  /** `s.strip()` is blank exactly when every character of `s` is whitespace. */
  lemma StripBlank(s: string)
    ensures Strip(s) == [] <==> forall k :: 0 <= k < |s| ==> IsSpace(s[k])
  {
    var t := StripLeft(s, false);
    if t != [] {
      assert !IsSpace(t[0]) && t[0] == s[|s| - |t|];
      assert StripRight(t, false) != [];
    }
  }

  /** Stripping twice is stripping once. */
  lemma StripIdempotent(s: string)
    ensures Strip(Strip(s)) == Strip(s)
  {
    StripUnpadded(Strip(s));
  }

  /** A string with no whitespace at either end is its own `strip()`. */
  lemma StripUnpadded(s: string)
    requires s == [] || (!IsSpace(s[0]) && !IsSpace(s[|s| - 1]))
    ensures Strip(s) == s
  {
    StripLeftUnpadded(s, false);
    StripRightUnpadded(s, false);
  }

  /** A string with no number whitespace at either end is its own numeral. */
  lemma NumberStripUnpadded(s: string)
    requires s == [] || (!IsNumberSpace(s[0]) && !IsNumberSpace(s[|s| - 1]))
    ensures NumberStrip(s) == s
  {
    StripLeftUnpadded(s, true);
    StripRightUnpadded(s, true);
  }

  lemma StripLeftUnpadded(s: string, numeric: bool)
    requires s == [] || !IsBlank(s[0], numeric)
    ensures StripLeft(s, numeric) == s
  {
  }

  lemma StripRightUnpadded(s: string, numeric: bool)
    requires s == [] || !IsBlank(s[|s| - 1], numeric)
    ensures StripRight(s, numeric) == s
  {
  }

  lemma StripLeftBlank(s: string, numeric: bool)
    requires s != [] && IsBlank(s[0], numeric)
    ensures StripLeft(s, numeric) == StripLeft(s[1..], numeric)
  {
  }

  lemma DigitsUnpadded(s: string)
    requires AllDigits(s)
    ensures NumberStrip(s) == s
  {
    NumberStripUnpadded(s);
  }

  /** A numeral with its leading '+' or '-' removed. */
  function Unsigned(t: string): string {
    if t != [] && (t[0] == '+' || t[0] == '-') then t[1..] else t
  }

  /** The sign a numeral's leading '-' gives. */
  function Negated(t: string, v: real): real {
    if t != [] && t[0] == '-' then -v else v
  }

  /**
   * Python's `int(s)` on a string: optional surrounding number whitespace, an
   * optional sign and one or more decimal digits; anything else raises.
   */
  function ParseInt(s: string): (r: Option<int>)
    ensures r.Some? <==> Unsigned(NumberStrip(s)) != [] && AllDigits(Unsigned(NumberStrip(s)))
    ensures r.Some? ==> r.value as real == Negated(NumberStrip(s), DigitsValue(Unsigned(NumberStrip(s))) as real)
    ensures r.Some? ==> NumberStrip(s) != []
    ensures NumberStrip(s) != [] && AllDigits(NumberStrip(s)) ==> r == Some(DigitsValue(NumberStrip(s)))
    ensures r.Some? && r.value < 0 ==> NumberStrip(s)[0] == '-'
  {
    var t := NumberStrip(s);
    if t != [] && (t[0] == '+' || t[0] == '-') then
      var body := t[1..];
      if body != [] && AllDigits(body) then
        Some(if t[0] == '-' then -(DigitsValue(body) as int) else DigitsValue(body))
      else None
    else if t != [] && AllDigits(t) then Some(DigitsValue(t))
    else None
  }

  /** The first part of a split starts with the string's first character, unless that is the separator. */
  lemma SplitFirstPart(s: string, sep: char)
    requires s != [] && s[0] != sep
    ensures Split(s, sep)[0] != [] && Split(s, sep)[0][0] == s[0]
  {
  }

  /** A bare string starting with neither a digit, a sign nor '.' is no numeral. */
  lemma NoNumeral(s: string)
    requires s != [] && NumberStrip(s) == s && !IsDigit(s[0]) && s[0] !in "+-."
    ensures ParseInt(s).None? && ParseDecimal(s).None?
  {
    SplitFirstPart(s, '.');
  }

  /** Strings with the same numeral read the same. */
  lemma SameNumeral(s: string, t: string)
    requires NumberStrip(s) == NumberStrip(t)
    ensures ParseInt(s) == ParseInt(t) && ParseDecimal(s) == ParseDecimal(t)
  {
  }

  /** `strip()` drops a leading 0x1C in front of digits. */
  lemma StripDropsSeparator(s: string)
    requires s != [] && s[0] == '\U{1C}' && s[1..] != [] && AllDigits(s[1..])
    ensures Strip(s) == s[1..]
  {
    var t := s[1..];
    assert IsDigit(t[0]) && IsDigit(t[|t| - 1]);
    StripLeftBlank(s, false);
    StripLeftUnpadded(t, false);
    StripRightUnpadded(t, false);
  }

  /** `int()` and `float()` refuse digits after a leading 0x1C. */
  lemma NumberRefusesSeparator(s: string)
    requires s != [] && s[0] == '\U{1C}' && s[1..] != [] && AllDigits(s[1..])
    ensures ParseInt(s).None? && ParseDecimal(s).None?
  {
    var t := s[1..];
    assert IsDigit(t[|t| - 1]) && s[|s| - 1] == t[|t| - 1];
    NumberStripUnpadded(s);
    NoNumeral(s);
  }

  /** `int()` and `float()` skip a leading tab in front of digits. */
  lemma NumberSkipsTab(s: string)
    requires s != [] && s[0] == '\t' && s[1..] != [] && AllDigits(s[1..])
    ensures ParseInt(s) == Some(DigitsValue(s[1..]))
    ensures ParseDecimal(s) == Some(DigitsValue(s[1..]) as real)
  {
    var t := s[1..];
    StripLeftBlank(s, true);
    SameNumeral(s, t);
    ParseDecimalOfDigits(t);
    DigitsUnpadded(t);
  }

  /**
   * 0x1C is whitespace to `strip()` but not around a number: `strip()`
   * drops it in front of digits, while `int()` and `float()` refuse the
   * string; a tab in the same place is skipped by both.
   */
  lemma SeparatorIsNotNumberSpace(sep: string, tab: string)
    requires sep != [] && sep[0] == '\U{1C}' && sep[1..] != [] && AllDigits(sep[1..])
    requires tab != [] && tab[0] == '\t' && tab[1..] == sep[1..]
    ensures Strip(sep) == sep[1..]
    ensures ParseInt(sep).None? && ParseDecimal(sep).None?
    ensures ParseInt(tab) == Some(DigitsValue(sep[1..]))
    ensures ParseDecimal(tab) == Some(DigitsValue(sep[1..]) as real)
  {
    StripDropsSeparator(sep);
    NumberRefusesSeparator(sep);
    NumberSkipsTab(tab);
  }

  /** `int(s)` reads a zero-padded decimal numeral back as its number. */
  lemma ParsePaddedDecimal(n: nat, width: int)
    ensures ParseInt(ZFill(DecimalString(n), width)) == Some(n)
  {
    var s := DecimalString(n);
    ZFillDigitsValue(s, width);
    DecimalStringValue(n);
    var t := ZFill(s, width);
    DigitsUnpadded(t);
    assert IsDigit(t[0]);
  }

  /** A number below 10^k prints with at most k digits. */
  lemma {:induction false} DecimalStringLength(n: nat, k: nat)
    requires k >= 1 && n < Pow10(k)
    ensures |DecimalString(n)| <= k
  {
    if n >= 10 {
      DecimalStringLength(n / 10, k - 1);
    }
  }

  /** `v` shifted `k` places right of the decimal point, one place at a time. */
  function Shifted(v: nat, k: nat): (r: real)
    ensures 0.0 <= r
  {
    if k == 0 then v as real else Shifted(v, k - 1) / 10.0
  }

  /** Shifting `k` places is dividing by 10^k. */
  lemma {:induction false} ShiftedIsQuotient(v: nat, k: nat)
    ensures Shifted(v, k) == v as real / Pow10(k) as real
  {
    if k > 0 {
      ShiftedIsQuotient(v, k - 1);
      QuotientByTen(v as real, Pow10(k - 1) as real);
    }
  }

  /** Dividing by `p` and then by ten is dividing by `10 p`. */
  lemma QuotientByTen(x: real, p: real)
    requires p > 0.0
    ensures x / p / 10.0 == x / (10.0 * p)
  {
  }

  /** The value of the digits after a decimal point: `0.d1d2…dk` is `d1d2…dk / 10^k`. */
  function FractionValue(b: string): (v: real)
    requires AllDigits(b)
    ensures 0.0 <= v
  {
    Shifted(DigitsValue(b), |b|)
  }

  /**
   * An unsigned decimal numeral already split at its '.': one non-empty run
   * of digits, or two runs of digits that are not both empty, read as whole
   * part plus fraction.
   */
  function UnsignedDecimal(parts: seq<string>): (r: Option<real>)
    ensures r.Some? <==>
      || (|parts| == 1 && parts[0] != [] && AllDigits(parts[0]))
      || (|parts| == 2 && AllDigits(parts[0]) && AllDigits(parts[1]) && parts[0] + parts[1] != [])
    ensures r.Some? ==>
      r.value == DigitsValue(parts[0]) as real + if |parts| == 2 then FractionValue(parts[1]) else 0.0
    ensures r.Some? ==> r.value >= 0.0
  {
    if |parts| == 1 && parts[0] != [] && AllDigits(parts[0]) then Some(DigitsValue(parts[0]) as real)
    else if |parts| == 2 && AllDigits(parts[0]) && AllDigits(parts[1]) && parts[0] + parts[1] != [] then
      Some(DigitsValue(parts[0]) as real + FractionValue(parts[1]))
    else None
  }

  /**
   * Python's `float(s)` on a plain decimal: optional surrounding number whitespace,
   * an optional sign, and digits with at most one '.', at least one digit.
   */
  function ParseDecimal(s: string): (r: Option<real>)
    ensures r.Some? <==> UnsignedDecimal(Split(Unsigned(NumberStrip(s)), '.')).Some?
    ensures r.Some? ==> r.value == Negated(NumberStrip(s), UnsignedDecimal(Split(Unsigned(NumberStrip(s)), '.')).value)
    ensures r.Some? ==> NumberStrip(s) != []
    ensures r.Some? && r.value < 0.0 ==> NumberStrip(s)[0] == '-'
  {
    var t := NumberStrip(s);
    match UnsignedDecimal(Split(Unsigned(t), '.'))
    case None => None
    case Some(v) => Some(Negated(t, v))
  }

  /** `float` reads a plain digit string as the integer it denotes. */
  lemma ParseDecimalOfDigits(s: string)
    requires s != [] && AllDigits(s)
    ensures ParseDecimal(s) == Some(DigitsValue(s) as real)
  {
    DigitsUnpadded(s);
    assert IsDigit(s[0]);
    DigitsHaveNoPoint(s);
    SplitNoSeparator(s, '.');
    ParseDecimalOfWhole(s);
  }

  /** A bare numeral with no '.' in it. */
  lemma ParseDecimalOfWhole(s: string)
    requires s != [] && AllDigits(s)
    requires NumberStrip(s) == s && Unsigned(s) == s && Split(s, '.') == [s]
    ensures ParseDecimal(s) == Some(DigitsValue(s) as real)
  {
  }

  /** A string of digits holds no '.'. */
  lemma DigitsHaveNoPoint(a: string)
    requires AllDigits(a)
    ensures '.' !in a
  {
    forall i | 0 <= i < |a| ensures a[i] != '.' { assert IsDigit(a[i]); }
  }

  /** Digits joined by one '.' split back into the two runs. */
  lemma SplitAtPoint(a: string, b: string)
    requires AllDigits(a) && AllDigits(b)
    ensures Split(a + "." + b, '.') == [a, b]
  {
    DigitsHaveNoPoint(a);
    DigitsHaveNoPoint(b);
    assert Join([a, b], '.') == a + "." + b;
    SplitJoin([a, b], '.');
  }

  /** A string that starts and ends with a digit has no whitespace or sign to remove. */
  lemma DigitBoundedBare(s: string)
    requires s != [] && IsDigit(s[0]) && IsDigit(s[|s| - 1])
    ensures NumberStrip(s) == s && Unsigned(s) == s
  {
    NumberStripUnpadded(s);
  }

  /** `float` reads two non-empty digit strings joined by '.' as whole part plus fraction. */
  lemma ParseDecimalOfParts(a: string, b: string)
    requires a != [] && b != [] && AllDigits(a) && AllDigits(b)
    ensures ParseDecimal(a + "." + b) == Some(DigitsValue(a) as real + FractionValue(b))
  {
    var s := a + "." + b;
    assert s[0] == a[0] && s[|s| - 1] == b[|b| - 1];
    assert IsDigit(a[0]) && IsDigit(b[|b| - 1]);
    DigitBoundedBare(s);
    SplitAtPoint(a, b);
    ParseDecimalOfSplit(s, a, b);
  }

  /** A bare numeral that splits at its one '.' into two digit strings. */
  lemma ParseDecimalOfSplit(s: string, a: string, b: string)
    requires a != [] && b != [] && AllDigits(a) && AllDigits(b)
    requires NumberStrip(s) == s && Unsigned(s) == s && Split(s, '.') == [a, b]
    ensures ParseDecimal(s) == Some(DigitsValue(a) as real + FractionValue(b))
  {
  }

  /** The fraction digits `b` are worth `b` read as a whole number over 10^|b|. */
  lemma FractionValueIsQuotient(b: string)
    requires AllDigits(b)
    ensures FractionValue(b) == DigitsValue(b) as real / Pow10(|b|) as real
  {
    ShiftedIsQuotient(DigitsValue(b), |b|);
  }

  /** `f` written with `k` zero-padded fraction digits is worth `f / 10^k`. */
  lemma PaddedFractionValue(f: nat, k: nat)
    requires k >= 1 && f < Pow10(k)
    ensures AllDigits(ZFill(DecimalString(f), k))
    ensures FractionValue(ZFill(DecimalString(f), k)) == f as real / Pow10(k) as real
  {
    var b := ZFill(DecimalString(f), k);
    DecimalStringLength(f, k);
    ZFillDigitsValue(DecimalString(f), k);
    DecimalStringValue(f);
    assert |b| == k && DigitsValue(b) == f;
    FractionValueIsQuotient(b);
  }

  /** `float(str(n))` is `n`. */
  lemma ParseDecimalOfInteger(n: nat)
    ensures ParseDecimal(DecimalString(n)) == Some(n as real)
  {
    ParseDecimalOfDigits(DecimalString(n));
    DecimalStringValue(n);
  }

  function LowerChar(c: char): char {
    if 'A' <= c <= 'Z' then (c as int + 32) as char else c
  }

  /** Python's `s.lower()` on ASCII letters. */
  function Lower(s: string): (r: string)
    ensures |r| == |s| && forall i :: 0 <= i < |s| ==> r[i] == LowerChar(s[i])
  {
    seq(|s|, i requires 0 <= i < |s| => LowerChar(s[i]))
  }

  predicate StartsWith(s: string, prefix: string) {
    |prefix| <= |s| && s[..|prefix|] == prefix
  }

  /** Python's `sub in s` on strings: `sub` occurs at some position of `s`. */
  predicate Contains(s: string, sub: string)
  {
    StartsWith(s, sub) || (s != [] && Contains(s[1..], sub))
  }

  /** A string cannot contain a longer one. */
  lemma {:induction false} ContainsNeedsRoom(s: string, sub: string)
    requires |sub| > |s|
    ensures !Contains(s, sub)
  {
    if s != [] {
      ContainsNeedsRoom(s[1..], sub);
    }
  }

  /** The recursive test agrees with "some slice of `s` equals `sub`". */
  lemma {:induction false} ContainsAt(s: string, sub: string)
    ensures Contains(s, sub) <==> exists i :: 0 <= i <= |s| - |sub| && StartsWith(s[i..], sub)
  {
    if s == [] {
      assert sub == [] ==> StartsWith(s[0..], sub);
    } else {
      assert s[0..] == s;
      ContainsAt(s[1..], sub);
      if Contains(s[1..], sub) {
        var i :| 0 <= i <= |s| - 1 - |sub| && StartsWith(s[1..][i..], sub);
        assert s[1..][i..] == s[i + 1..];
      }
      if !StartsWith(s, sub) && exists i :: 0 <= i <= |s| - |sub| && StartsWith(s[i..], sub) {
        var i :| 0 <= i <= |s| - |sub| && StartsWith(s[i..], sub);
        assert i > 0;
        assert s[1..][i - 1..] == s[i..];
      }
    }
  }
}
