/** Shared vocabulary: optional values and the decimal-text arithmetic that the
    number generators (job cards, rentals, transfers) and the access middleware
    rely on: rendering a natural number in decimal, zero padding, and the
    parsing rules of Python's `int(str)` for ASCII text. */
module Common {

  datatype Option<+T> = None | Some(value: T)

  /** Python truthiness of a nullable text value: set and not empty. */
  predicate Given(v: Option<string>)
  {
    v.Some? && v.value != ""
  }

  /** The image a product without one is shown with. */
  const ProductPlaceholder := "/static/images/products/placeholder.jpg"

  predicate IsDigit(c: char) { '0' <= c <= '9' }

  predicate AllDigits(s: string) { forall i :: 0 <= i < |s| ==> IsDigit(s[i]) }

  function DigitChar(d: nat): (c: char)
    requires d < 10
    ensures IsDigit(c)
  {
    ['0', '1', '2', '3', '4', '5', '6', '7', '8', '9'][d]
  }

  /** The value of a decimal digit character (meaningful for digits only). */
  function DigitValue(c: char): int
  {
    c as int - '0' as int
  }

  lemma DigitRoundTrip(d: nat)
    requires d < 10
    ensures DigitValue(DigitChar(d)) == d
  {
  }

  /** The value of a string of decimal digits, most significant first. */
  function DigitsValue(s: string): int
    decreases |s|
  {
    if s == [] then 0 else 10 * DigitsValue(s[..|s| - 1]) + DigitValue(s[|s| - 1])
  }

  /** Decimal rendering of a natural number without leading zeros ("0" for zero). */
  function NatToString(n: nat): (s: string)
    ensures |s| >= 1
    decreases n
  {
    if n < 10 then [DigitChar(n)] else NatToString(n / 10) + [DigitChar(n % 10)]
  }

  lemma {:induction false} NatToStringDigits(n: nat)
    ensures AllDigits(NatToString(n))
    decreases n
  {
    if n >= 10 {
      NatToStringDigits(n / 10);
    }
  }

  lemma {:induction false} NatToStringValue(n: nat)
    ensures DigitsValue(NatToString(n)) == n
    decreases n
  {
    var s := NatToString(n);
    if n < 10 {
      assert s[..0] == [];
      DigitRoundTrip(n);
    } else {
      NatToStringValue(n / 10);
      assert s[..|s| - 1] == NatToString(n / 10);
      DigitRoundTrip(n % 10);
    }
  }

  /** The number of decimal digits NatToString uses for values below 10^k. */
  lemma {:induction false} NatToStringShort(n: nat, k: nat)
    requires 1 <= k && n < Pow10(k)
    ensures |NatToString(n)| <= k
    decreases k
  {
    if n >= 10 {
      assert Pow10(1) == 10;
      assert n / 10 < Pow10(k - 1);
      NatToStringShort(n / 10, k - 1);
    }
  }

  /** From 10^k on, NatToString needs more than k digits. */
  lemma {:induction false} NatToStringLong(n: nat, k: nat)
    requires Pow10(k) <= n
    ensures |NatToString(n)| > k
    decreases k
  {
    if k > 0 {
      assert n / 10 >= Pow10(k - 1);
      NatToStringLong(n / 10, k - 1);
    }
  }

  /** 10^k - 1 is the largest number of k digits; 10^k needs k + 1. */
  lemma PowerBoundary(k: nat)
    requires 1 <= k
    ensures |NatToString(Pow10(k) - 1)| == k && |NatToString(Pow10(k))| == k + 1
  {
    NatToStringShort(Pow10(k) - 1, k);
    NatToStringLong(Pow10(k) - 1, k - 1);
    NatToStringShort(Pow10(k), k + 1);
    NatToStringLong(Pow10(k), k);
  }

  function Pow10(k: nat): (p: nat)
    ensures p >= 1
  {
    if k == 0 then 1 else 10 * Pow10(k - 1)
  }

  /** The powers of ten the fixed-width formats use. */
  lemma Pow10Table()
    ensures Pow10(1) == 10 && Pow10(2) == 100 && Pow10(4) == 10000 && Pow10(5) == 100000 && Pow10(6) == 1000000
  {
    assert Pow10(1) == 10;
    assert Pow10(2) == 100;
    assert Pow10(3) == 1000;
    assert Pow10(4) == 10000;
    assert Pow10(5) == 100000;
  }

  function Zeros(k: nat): (s: string)
    ensures |s| == k
  {
    if k == 0 then [] else Zeros(k - 1) + ['0']
  }

  lemma {:induction false} ZerosAreZeros(k: nat)
    ensures forall i :: 0 <= i < k ==> Zeros(k)[i] == '0'
    ensures AllDigits(Zeros(k))
    decreases k
  {
    if k > 0 {
      ZerosAreZeros(k - 1);
    }
  }

  /** Left padding with '0' up to `width` characters; longer text is kept whole. */
  function PadZeros(s: string, width: nat): (r: string)
    ensures |r| == if |s| >= width then |s| else width
  {
    if |s| >= width then s else Zeros(width - |s|) + s
  }

  /** Padding only adds zeros in front: the text is the tail of the result. */
  lemma PadZerosShape(s: string, width: nat)
    ensures var r := PadZeros(s, width);
      && r[|r| - |s|..] == s
      && forall i :: 0 <= i < |r| - |s| ==> r[i] == '0'
  {
    if |s| < width {
      ZerosAreZeros(width - |s|);
    }
  }

  lemma {:induction false} LeadingZerosValue(k: nat, s: string)
    ensures DigitsValue(Zeros(k) + s) == DigitsValue(s)
    decreases |s|
  {
    var t := Zeros(k) + s;
    if s == [] {
      assert t == Zeros(k);
      ZerosValue(k);
    } else {
      assert t[..|t| - 1] == Zeros(k) + s[..|s| - 1];
      LeadingZerosValue(k, s[..|s| - 1]);
    }
  }

  lemma {:induction false} ZerosValue(k: nat)
    ensures DigitsValue(Zeros(k)) == 0
    decreases k
  {
    if k > 0 {
      assert Zeros(k)[..k - 1] == Zeros(k - 1);
      ZerosValue(k - 1);
    }
  }

  /** Zero-padded decimal rendering of a natural number: an `0Nd` format. */
  function PaddedDecimal(n: nat, width: nat): (s: string)
    ensures |s| >= width && |s| >= 1
  {
    PadZeros(NatToString(n), width)
  }

  /** The rendering is digits only and reads back as n. */
  lemma PaddedDecimalValue(n: nat, width: nat)
    ensures AllDigits(PaddedDecimal(n, width))
    ensures DigitsValue(PaddedDecimal(n, width)) == n
  {
    var t := NatToString(n);
    NatToStringValue(n);
    NatToStringDigits(n);
    if |t| < width {
      LeadingZerosValue(width - |t|, t);
      ZerosAreZeros(width - |t|);
      ConcatDigits(Zeros(width - |t|), t);
    }
  }

  lemma ConcatDigits(a: string, b: string)
    requires AllDigits(a) && AllDigits(b)
    ensures AllDigits(a + b)
  {
  }

  lemma PaddedDecimalWidth(n: nat, width: nat)
    requires 1 <= width && n < Pow10(width)
    ensures |PaddedDecimal(n, width)| == width
  {
    NatToStringShort(n, width);
  }

  // ---------------------------------------------------------------------
  // Python's int(str) on ASCII text
  // ---------------------------------------------------------------------

  /** The ASCII characters `str.isspace()` accepts: space, tab, line feed,
      carriage return, vertical tab, form feed, and the separators 0x1C-0x1F. */
  predicate IsSpace(c: char) { c == ' ' || c == '\t' || c == '\n' || c == '\r' || c == '\U{B}' || c == '\U{C}' || '\U{1C}' <= c <= '\U{1F}' }

  function StripLeft(s: string): string
  {
    if s != [] && IsSpace(s[0]) then StripLeft(s[1..]) else s
  }

  function StripRight(s: string): string
  {
    if s != [] && IsSpace(s[|s| - 1]) then StripRight(s[..|s| - 1]) else s
  }

  function Strip(s: string): string { StripRight(StripLeft(s)) }

  /** Digits, possibly grouped by single underscores, starting and ending with a digit. */
  predicate DigitGroups(s: string)
  {
    && |s| >= 1 && IsDigit(s[0]) && IsDigit(s[|s| - 1])
    && (forall i :: 0 <= i < |s| ==> IsDigit(s[i]) || s[i] == '_')
    && NoDoubleUnderscore(s)
  }

  /** No two underscores in a row. */
  predicate NoDoubleUnderscore(s: string)
    decreases |s|
  {
    |s| < 2 || (!(s[0] == '_' && s[1] == '_') && NoDoubleUnderscore(s[1..]))
  }

  lemma {:induction false} DigitsHaveNoUnderscore(s: string)
    requires AllDigits(s)
    ensures NoDoubleUnderscore(s)
    decreases |s|
  {
    if |s| >= 2 {
      DigitsHaveNoUnderscore(s[1..]);
    }
  }

  /** The text without its underscores. */
  function DropUnderscores(s: string): string
  {
    if s == [] then []
    else (if s[0] == '_' then [] else [s[0]]) + DropUnderscores(s[1..])
  }

  /** CPython's default cap on the digits `int()` converts from decimal text
      (`sys.get_int_max_str_digits()`); underscores and the sign do not count. */
  const MaxStrDigits := 4300

  /** CPython also refuses to render an int with more than MaxStrDigits
      digits as decimal text (`str`, `format`, f-strings); the sign does not
      count. */
  predicate Printable(n: int)
  {
    |NatToString(if n < 0 then -n else n)| <= MaxStrDigits
  }

  /** Digit groups read as a natural number; None when the text is not digit
      groups or holds more digits than the cap. */
  function ParseDigitGroups(t: string): Option<int>
  {
    if DigitGroups(t) && |DropUnderscores(t)| <= MaxStrDigits then Some(DigitsValue(DropUnderscores(t))) else None
  }

  /** `int(s)` for ASCII text: surrounding white space, an optional sign, and
      digit groups of at most MaxStrDigits digits; None stands for the
      ValueError Python raises otherwise. */
  function ParseInt(s: string): (r: Option<int>)
  {
    var t := Strip(s);
    if |t| >= 1 && (t[0] == '+' || t[0] == '-') then
      match ParseDigitGroups(t[1..])
      case Some(v) => Some(if t[0] == '-' then -v else v)
      case None => None
    else
      ParseDigitGroups(t)
  }

  lemma {:induction false} StripDigits(s: string)
    requires |s| >= 1 && IsDigit(s[0]) && IsDigit(s[|s| - 1])
    ensures Strip(s) == s
  {
  }

  lemma DigitsAreGroups(s: string)
    requires |s| >= 1 && AllDigits(s)
    ensures DigitGroups(s) && DropUnderscores(s) == s
  {
    DigitsHaveNoUnderscore(s);
    DigitsKeepAll(s);
  }

  lemma {:induction false} DigitsKeepAll(s: string)
    requires AllDigits(s)
    ensures DropUnderscores(s) == s
    decreases |s|
  {
    if s != [] {
      DigitsKeepAll(s[1..]);
    }
  }

  /** Plain digit text reads back as its value, up to the digit cap; longer
      text raises. */
  lemma ParseDigits(s: string)
    requires |s| >= 1 && AllDigits(s)
    ensures ParseInt(s) == if |s| <= MaxStrDigits then Some(DigitsValue(s)) else None
  {
    assert IsDigit(s[0]) && IsDigit(s[|s| - 1]);
    StripDigits(s);
    DigitsAreGroups(s);
  }

  /** The information separators count as white space: `int(" 42\x1c")` is 42. */
  lemma ParseSeparated()
    ensures ParseInt([' ', '4', '2', '\U{1C}']) == Some(42)
  {
    var s := [' ', '4', '2', '\U{1C}'];
    assert StripLeft(s) == s[1..];
    assert s[1..][..2] == ['4', '2'];
    assert Strip(s) == ['4', '2'];
    ParseDigits(['4', '2']);
  }

  /** One digit more than the cap makes `int()` raise. */
  lemma OverlongDigitsRaise()
    ensures ParseInt(seq(MaxStrDigits + 1, _ => '9')) == None
  {
    ParseDigits(seq(MaxStrDigits + 1, _ => '9'));
  }

  /** Any zero-padded rendering of n within the digit cap reads back as n; a
      longer one raises. */
  lemma ParsePaddedDecimal(n: nat, width: nat)
    ensures ParseInt(PaddedDecimal(n, width)) == if |PaddedDecimal(n, width)| <= MaxStrDigits then Some(n) else None
  {
    PaddedDecimalValue(n, width);
    ParseDigits(PaddedDecimal(n, width));
  }
}
