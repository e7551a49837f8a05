/**
 * Number parsing and rendering as the two runtimes do it: Python's `float(s)`
 * (strict, used by the CSV importer) and JavaScript's `parseInt` / `parseFloat`
 * (lenient prefix parsers, used by the pages) and `Number.prototype.toString`.
 */
module Numbers {
  import opened Wrappers
  import opened Text

  /** A JavaScript number: a finite value, or NaN from a failed parse. */
  datatype JsNumber = Finite(value: real) | NaN

  /** JavaScript's `x > 0`, which is false for NaN. */
  predicate Positive(x: JsNumber) {
    x.Finite? && x.value > 0.0
  }

  /** Length of the longest prefix of `s` made of decimal digits. */
  function DigitPrefixLength(s: string): (n: nat)
    ensures n <= |s| && AllDigits(s[..n])
    ensures n < |s| ==> !IsDigit(s[n])
  {
    if s != [] && IsDigit(s[0]) then
      var m := DigitPrefixLength(s[1..]);
      assert s[..1 + m] == [s[0]] + s[1..][..m];
      1 + m
    else 0
  }

  lemma {:induction false} DigitPrefixOfDigits(a: string, b: string)
    requires AllDigits(a)
    requires b != [] ==> !IsDigit(b[0])
    ensures DigitPrefixLength(a + b) == |a|
  {
    if a != [] {
      assert (a + b)[1..] == a[1..] + b;
      DigitPrefixOfDigits(a[1..], b);
    } else {
      assert a + b == b;
    }
  }

  /** `intPart.fracPart` read as an exact decimal. */
  function DecimalValue(intPart: string, fracPart: string): real
    requires AllDigits(intPart) && AllDigits(fracPart)
  {
    NatValue(intPart) as real + Shifted(NatValue(fracPart), |fracPart|)
  }

  /** `n / 10^k`, one decimal place at a time. */
  function Shifted(n: nat, k: nat): real {
    if k == 0 then n as real else Shifted(n, k - 1) / 10.0
  }

  /** The sign of a number's text and the text after it. */
  function SplitSign(t: string): (bool, string) {
    if t != [] && (t[0] == '-' || t[0] == '+') then (t[0] == '-', t[1..]) else (false, t)
  }

  function Signed(negative: bool, v: real): real {
    if negative then -v else v
  }

  /** The value of the longest run of digits at the start of `u`, if there is one. */
  function LeadingInt(u: string): Option<nat> {
    var k := DigitPrefixLength(u);
    if k == 0 then None else Some(NatValue(u[..k]))
  }

  predicate IsHexDigit(c: char) {
    IsDigit(c) || 'a' <= c <= 'f' || 'A' <= c <= 'F'
  }

  function HexDigitValue(c: char): (v: nat)
    requires IsHexDigit(c)
    ensures v < 16
  {
    if IsDigit(c) then DigitValue(c) else if 'a' <= c <= 'f' then c as int - 'a' as int + 10 else c as int - 'A' as int + 10
  }

  /** Length of the longest prefix of `s` made of hexadecimal digits. */
  function HexPrefixLength(s: string): (n: nat)
    ensures n <= |s| && forall i :: 0 <= i < n ==> IsHexDigit(s[i])
    ensures n < |s| ==> !IsHexDigit(s[n])
  {
    if s != [] && IsHexDigit(s[0]) then 1 + HexPrefixLength(s[1..]) else 0
  }

  /** Value of a string of hexadecimal digits, most significant first. */
  function HexValue(s: string): nat
    requires forall i :: 0 <= i < |s| ==> IsHexDigit(s[i])
  {
    if s == [] then 0 else 16 * HexValue(s[..|s| - 1]) + HexDigitValue(s[|s| - 1])
  }

  /** The text after a sign starts with `0x` or `0X`, which switches `parseInt` to base 16. */
  predicate HexPrefixed(u: string) {
    |u| >= 2 && u[0] == '0' && (u[1] == 'x' || u[1] == 'X')
  }

  /**
   * JavaScript's `parseInt(s)` with no radix: leading whitespace and one
   * sign are skipped; after a `0x` prefix the longest run of hexadecimal
   * digits is read, otherwise the longest run of decimal digits; no digit
   * gives NaN.
   */
  function ParseIntJs(s: string): (r: JsNumber) {
    var (negative, u) := SplitSign(TrimLeft(s));
    match LeadingIntJs(u)
    case None => NaN
    case Some(n) => Finite(Signed(negative, n as real))
  }

  /** What `parseInt` reads after the sign: hexadecimal after `0x`, decimal otherwise. */
  function LeadingIntJs(u: string): Option<nat> {
    if HexPrefixed(u) then
      var h := u[2..];
      var k := HexPrefixLength(h);
      if k == 0 then None else Some(HexValue(h[..k]))
    else LeadingInt(u)
  }

  /** `v × 10^e`, one power of ten at a time. */
  function ScaleBy10(v: real, e: int): real
    decreases if e < 0 then -e else e
  {
    if e == 0 then v else if e > 0 then ScaleBy10(v * 10.0, e - 1) else ScaleBy10(v / 10.0, e + 1)
  }

  /** The exponent `e[+|-]digits` (or `E...`) at the start of `x`, if it is one. */
  function LeadingExponent(x: string): Option<int> {
    if x == [] || (x[0] != 'e' && x[0] != 'E') then None
    else
      var (negative, d) := SplitSign(x[1..]);
      match LeadingInt(d)
      case None => None
      case Some(n) => var e: int := n; Some(if negative then -e else e)
  }

  /**
   * The value of the longest prefix of `u` of the form
   * `digits[.digits][e[+|-]digits]`, if its mantissa has a digit.
   */
  function LeadingDecimal(u: string): Option<real> {
    var k := DigitPrefixLength(u);
    var frac := if k < |u| && u[k] == '.' then u[k + 1..][..DigitPrefixLength(u[k + 1..])] else "";
    var mantissa := if k < |u| && u[k] == '.' then k + 1 + |frac| else k;
    if k == 0 && frac == [] then None
    else
      var v := DecimalValue(u[..k], frac);
      match LeadingExponent(u[mantissa..])
      case None => Some(v)
      case Some(e) => Some(ScaleBy10(v, e))
  }

  /**
   * JavaScript's `parseFloat(s)`: leading whitespace and one sign are skipped,
   * then the longest prefix of the form `digits[.digits][e[+|-]digits]` is
   * read; a prefix without any mantissa digit gives NaN.
   */
  function ParseFloatJs(s: string): (r: JsNumber) {
    var (negative, u) := SplitSign(TrimLeft(s));
    match LeadingDecimal(u)
    case None => NaN
    case Some(v) => Finite(Signed(negative, v))
  }

  /**
   * Python's `float(s)`: surrounding whitespace and one sign are allowed, and
   * the rest must be exactly `digits`, `digits.`, `digits.digits` or `.digits`;
   * anything else raises ValueError (None).
   */
  function ParsePyFloat(s: string): (r: Option<real>)
    ensures r.Some? ==> Strip(s) != []
  {
    var (negative, u) := SplitSign(Strip(s));
    match PyUnsignedValue(u)
    case None => None
    case Some(v) => Some(Signed(negative, v))
  }

  /** What Python's `float` reads after the sign: `digits`, `digits.`, `digits.digits` or `.digits`. */
  function PyUnsignedValue(u: string): (r: Option<real>)
    ensures r.Some? ==> u != []
  {
    var k := DigitPrefixLength(u);
    if k == |u| then
      (if k == 0 then None else Some(NatValue(u) as real))
    else if u[k] != '.' then None
    else
      var f := u[k + 1..];
      if !AllDigits(f) || (k == 0 && f == []) then None
      else Some(DecimalValue(u[..k], f))
  }

  /** JavaScript's rendering of a non-negative amount of `c` cents. */
  function CentsText(c: nat): string {
    var whole := NatToString(c / 100);
    var cents := c % 100;
    if cents == 0 then whole
    else if cents % 10 == 0 then whole + "." + [DigitChar(cents / 10)]
    else whole + "." + PadStart(NatToString(cents), 2, '0')
  }

  /** An amount that is a whole number of cents. */
  predicate WholeCents(x: real) {
    (x * 100.0).Floor as real == x * 100.0
  }

  /**
   * `amount.toString()`: the shortest decimal text of the amount. Exact for
   * amounts that are whole cents; other amounts are rendered truncated to cents.
   */
  function AmountText(x: real): string {
    if x < 0.0 then "-" + CentsText((-x * 100.0).Floor) else CentsText((x * 100.0).Floor)
  }

  lemma UnsignedText(t: string)
    requires t != [] && IsDigit(t[0])
    ensures TrimLeft(t) == t && SplitSign(t) == (false, t)
  {
  }

  lemma NegativeText(t: string)
    requires t != [] && IsDigit(t[0])
    ensures TrimLeft("-" + t) == "-" + t && SplitSign("-" + t) == (true, t)
  {
    assert ("-" + t)[1..] == t;
  }

  lemma LeadingIntOfDigits(digits: string)
    requires digits != [] && AllDigits(digits)
    ensures LeadingInt(digits) == Some(NatValue(digits))
  {
    DigitPrefixOfDigits(digits, "");
    assert digits + "" == digits;
    assert digits[..|digits|] == digits;
  }

  /** `parseInt(String(i)) == i`: the ids the pages put into form fields come back unchanged. */
  lemma IntToStringRoundTrip(i: int)
    ensures ParseIntJs(IntToString(i)) == Finite(i as real)
  {
    if i < 0 {
      NegativeText(NatToString(-i));
      LeadingIntOfDigits(NatToString(-i));
    } else {
      UnsignedText(NatToString(i));
      LeadingIntOfDigits(NatToString(i));
    }
  }

  lemma LeadingDecimalOfWhole(whole: string)
    requires whole != [] && AllDigits(whole)
    ensures LeadingDecimal(whole) == Some(NatValue(whole) as real)
  {
    DigitPrefixOfDigits(whole, "");
    assert whole + "" == whole;
    assert whole[..|whole|] == whole;
  }

  lemma LeadingDecimalOfFraction(whole: string, frac: string)
    requires whole != [] && AllDigits(whole) && AllDigits(frac)
    ensures LeadingDecimal(whole + "." + frac) == Some(DecimalValue(whole, frac))
  {
    var u := whole + "." + frac;
    assert u == whole + ("." + frac);
    DigitPrefixOfDigits(whole, "." + frac);
    assert u[..|whole|] == whole;
    assert u[|whole| + 1..] == frac;
    DigitPrefixOfDigits(frac, "");
    assert frac + "" == frac;
    assert frac[..|frac|] == frac;
  }

  /** An exponent scales the mantissa: `parseFloat("<whole>e<exp>")` is `whole × 10^exp`. */
  lemma LeadingDecimalOfExponent(whole: string, exp: string)
    requires whole != [] && AllDigits(whole) && exp != [] && AllDigits(exp)
    ensures LeadingDecimal(whole + "e" + exp) == Some(ScaleBy10(NatValue(whole) as real, NatValue(exp)))
  {
    var u := whole + ("e" + exp);
    assert whole + "e" + exp == u;
    DigitPrefixOfDigits(whole, "e" + exp);
    var k := |whole|;
    assert u[k] == 'e' && u[..k] == whole && u[k..] == "e" + exp;
    ExponentOfDigits(exp);
    LeadingWholeDecimal(u, k);
  }

  /** A mantissa with no fraction, followed by whatever exponent comes next. */
  lemma LeadingWholeDecimal(u: string, k: nat)
    requires k == DigitPrefixLength(u) && 0 < k < |u| && u[k] != '.'
    ensures LeadingDecimal(u) == match LeadingExponent(u[k..])
                                 case None => Some(NatValue(u[..k]) as real)
                                 case Some(e) => Some(ScaleBy10(NatValue(u[..k]) as real, e))
  {
    assert DecimalValue(u[..k], "") == NatValue(u[..k]) as real;
  }

  lemma ExponentOfDigits(exp: string)
    requires exp != [] && AllDigits(exp)
    ensures LeadingExponent("e" + exp) == Some(NatValue(exp))
  {
    assert ("e" + exp)[1..] == exp;
    LeadingIntOfDigits(exp);
  }

  /** After a `0x` prefix, `parseInt` reads every hexadecimal digit that follows. */
  lemma ParseIntJsOfHex(h: string)
    requires h != [] && forall i :: 0 <= i < |h| ==> IsHexDigit(h[i])
    ensures ParseIntJs("0x" + h) == Finite(HexValue(h) as real)
  {
    var u := "0x" + h;
    assert TrimLeft(u) == u && SplitSign(u) == (false, u);
    LeadingHex(h);
  }

  lemma LeadingHex(h: string)
    requires h != [] && forall i :: 0 <= i < |h| ==> IsHexDigit(h[i])
    ensures LeadingIntJs("0x" + h) == Some(HexValue(h))
  {
    assert ("0x" + h)[2..] == h;
    HexPrefixOfHex(h);
    assert h[..|h|] == h;
  }

  lemma {:induction false} HexPrefixOfHex(h: string)
    requires forall i :: 0 <= i < |h| ==> IsHexDigit(h[i])
    ensures HexPrefixLength(h) == |h|
  {
    if h != [] {
      HexPrefixOfHex(h[1..]);
    }
  }

  lemma CentsSplit(c: nat)
    ensures c as real / 100.0 == (c / 100) as real + (c % 100) as real / 100.0
  {
    assert c == 100 * (c / 100) + c % 100;
    assert c as real == 100.0 * (c / 100) as real + (c % 100) as real;
  }

  /** The text of a non-negative amount of cents: its whole part, and the digits after the point. */
  lemma CentsTextShape(c: nat) returns (frac: string)
    ensures AllDigits(frac)
    ensures frac == [] ==> CentsText(c) == NatToString(c / 100)
    ensures frac != [] ==> CentsText(c) == NatToString(c / 100) + "." + frac
    ensures Shifted(NatValue(frac), |frac|) == (c % 100) as real / 100.0
  {
    var cents := c % 100;
    if cents == 0 {
      frac := "";
    } else if cents % 10 == 0 {
      frac := [DigitChar(cents / 10)];
      TenthsValue(cents);
    } else {
      frac := PadStart(NatToString(cents), 2, '0');
      HundredthsValue(cents);
    }
  }

  /** A whole number of tenths written as its one digit. */
  lemma TenthsValue(cents: nat)
    requires cents < 100 && cents % 10 == 0
    ensures Shifted(NatValue([DigitChar(cents / 10)]), 1) == cents as real / 100.0
  {
    var frac := [DigitChar(cents / 10)];
    assert frac[..0] == [];
    assert NatValue(frac) == cents / 10;
    assert cents == 10 * (cents / 10);
  }

  /** Cents written as two digits, padded with a zero. */
  lemma HundredthsValue(cents: nat)
    requires cents < 100
    ensures var frac := PadStart(NatToString(cents), 2, '0');
            AllDigits(frac) && Shifted(NatValue(frac), |frac|) == cents as real / 100.0
  {
    var frac := PadStart(NatToString(cents), 2, '0');
    PaddedValue(cents, 2);
    NatToStringLength(cents, 2);
    assert |frac| == 2;
    assert NatValue(frac) == cents;
    assert Shifted(cents, 1) == cents as real / 10.0;
  }

  lemma LeadingDecimalOfCents(c: nat)
    ensures LeadingDecimal(CentsText(c)) == Some(c as real / 100.0)
  {
    var frac := CentsTextShape(c);
    CentsSplit(c);
    if frac == [] {
      LeadingDecimalOfWhole(NatToString(c / 100));
    } else {
      LeadingDecimalOfFraction(NatToString(c / 100), frac);
    }
  }

  lemma ParseFloatJsOfNegative(t: string)
    requires t != [] && IsDigit(t[0]) && LeadingDecimal(t).Some?
    ensures ParseFloatJs("-" + t) == Finite(-LeadingDecimal(t).value)
  {
    NegativeText(t);
  }

  lemma ParseFloatJsOfUnsigned(t: string)
    requires t != [] && IsDigit(t[0]) && LeadingDecimal(t).Some?
    ensures ParseFloatJs(t) == Finite(LeadingDecimal(t).value)
  {
    UnsignedText(t);
  }

  /** The whole number of cents in a negative whole-cent amount. */
  lemma NegativeCents(x: real)
    requires WholeCents(x) && x < 0.0
    ensures (-x * 100.0).Floor >= 0
    ensures (-x * 100.0).Floor as real / 100.0 == -x
  {
    var n := (x * 100.0).Floor;
    assert x * 100.0 == n as real;
    assert n < 0;
    var m := -n;
    assert -x * 100.0 == m as real;
    assert (-x * 100.0).Floor == m;
    assert m as real / 100.0 == -x;
  }

  /** Parsing the text of a whole-cent amount gives the amount back. */
  lemma AmountTextRoundTrip(x: real)
    requires WholeCents(x)
    ensures ParseFloatJs(AmountText(x)) == Finite(x)
  {
    if x < 0.0 {
      NegativeAmountTextRoundTrip(x);
    } else {
      var c := (x * 100.0).Floor;
      assert AmountText(x) == CentsText(c);
      CentsTextRoundTrip(c);
      assert c as real / 100.0 == x;
    }
  }

  /** Parsing the text of a non-negative number of cents gives the amount back. */
  lemma CentsTextRoundTrip(c: nat)
    ensures ParseFloatJs(CentsText(c)) == Finite(c as real / 100.0)
  {
    var frac := CentsTextShape(c);
    assert CentsText(c)[0] == NatToString(c / 100)[0];
    LeadingDecimalOfCents(c);
    ParseFloatJsOfUnsigned(CentsText(c));
  }

  /** `AmountTextRoundTrip` for a negative amount. */
  lemma NegativeAmountTextRoundTrip(x: real)
    requires WholeCents(x) && x < 0.0
    ensures ParseFloatJs(AmountText(x)) == Finite(x)
  {
    NegativeCents(x);
    var c := (-x * 100.0).Floor;
    LeadingDecimalOfCents(c);
    ParseFloatJsOfNegative(CentsText(c));
    assert -(c as real / 100.0) == x;
  }

  /**
   * Python's `repr` of an amount, as `csv.writer` writes it: like
   * `AmountText`, except that a whole number keeps a `.0`. Exact for
   * amounts that are whole cents.
   */
  function PyAmountText(x: real): string {
    var c := if x < 0.0 then (-x * 100.0).Floor else (x * 100.0).Floor;
    if x < 0.0 then "-" + PyCentsText(c) else PyCentsText(c)
  }

  /** Python's `str` of the unsigned amount `c / 100`: a whole amount keeps a `.0`. */
  function PyCentsText(c: nat): string {
    if c % 100 == 0 then CentsText(c) + ".0" else CentsText(c)
  }

  /** The parts of `digits.digits`. */
  lemma PointText(whole: string, frac: string)
    requires whole != [] && AllDigits(whole) && frac != [] && AllDigits(frac)
    ensures var u := whole + "." + frac;
            DigitPrefixLength(u) == |whole| && u[|whole|] == '.'
            && u[..|whole|] == whole && u[|whole| + 1..] == frac
            && IsDigit(u[0]) && IsDigit(u[|u| - 1])
  {
    var u := whole + "." + frac;
    assert u == whole + ("." + frac);
    DigitPrefixOfDigits(whole, "." + frac);
    assert u[|u| - 1] == frac[|frac| - 1];
  }

  /** The unsigned reading of `digits.digits`. */
  lemma PyUnsignedOfDecimal(whole: string, frac: string)
    requires whole != [] && AllDigits(whole) && frac != [] && AllDigits(frac)
    ensures var u := whole + "." + frac;
            IsDigit(u[0]) && IsDigit(u[|u| - 1]) && PyUnsignedValue(u) == Some(DecimalValue(whole, frac))
  {
    PointText(whole, frac);
  }

  /** The unsigned text of some cents, with or without a minus sign, reads as one value and its negation. */
  lemma PyCentsReadings(c: nat) returns (v: real)
    ensures ParsePyFloat(PyCentsText(c)) == Some(v)
    ensures ParsePyFloat("-" + PyCentsText(c)) == Some(-v)
  {
    v := PyCentsTextDigits(c);
    ParsePyFloatOfUnsigned(PyCentsText(c));
    ParsePyFloatOfMinusValue(PyCentsText(c), v);
  }

  /** The value Python reads from the unsigned text of `c` cents is `c / 100`. */
  lemma PyCentsReadingValue(c: nat, v: real)
    requires ParsePyFloat(PyCentsText(c)) == Some(v)
    ensures v == c as real / 100.0
  {
    var frac := PyCentsShape(c);
    PyUnsignedOfDecimal(NatToString(c / 100), frac);
    ParsePyFloatOfUnsigned(PyCentsText(c));
  }

  /** The unsigned text of some cents starts and ends with a digit and has an unsigned reading. */
  lemma PyCentsTextDigits(c: nat) returns (v: real)
    ensures var u := PyCentsText(c);
            u != [] && IsDigit(u[0]) && IsDigit(u[|u| - 1]) && PyUnsignedValue(u) == Some(v)
  {
    var frac := PyCentsShape(c);
    PyUnsignedOfDecimal(NatToString(c / 100), frac);
    v := DecimalValue(NatToString(c / 100), frac);
  }

  /** Python's `float` of text that starts and ends with a digit is its unsigned reading. */
  lemma ParsePyFloatOfUnsigned(u: string)
    requires u != [] && IsDigit(u[0]) && IsDigit(u[|u| - 1])
    ensures ParsePyFloat(u) == PyUnsignedValue(u)
  {
    StripUnpadded(u);
    assert SplitSign(u) == (false, u);
  }

  /** Python's `float` of a minus sign before text that starts and ends with a digit: the negated unsigned reading. */
  lemma ParsePyFloatOfMinusValue(u: string, v: real)
    requires u != [] && IsDigit(u[0]) && IsDigit(u[|u| - 1]) && PyUnsignedValue(u) == Some(v)
    ensures ParsePyFloat("-" + u) == Some(-v)
  {
    NegativeStripped(u);
    ParsePyFloatOfSigned("-" + u, u, v);
  }

  /** Python's `float` of stripped text that starts with a minus sign. */
  lemma ParsePyFloatOfSigned(t: string, u: string, v: real)
    requires Strip(t) == t && SplitSign(t) == (true, u) && PyUnsignedValue(u) == Some(v)
    ensures ParsePyFloat(t) == Some(-v)
  {
  }



  /** A minus sign before text that starts and ends with a digit. */
  lemma NegativeStripped(u: string)
    requires u != [] && IsDigit(u[0]) && IsDigit(u[|u| - 1])
    ensures Strip("-" + u) == "-" + u && SplitSign("-" + u) == (true, u)
  {
    var t := "-" + u;
    assert t[|t| - 1] == u[|u| - 1];
    StripUnpadded(t);
    assert t[1..] == u;
  }

  /** The whole part and the digits after the point of a non-negative cents amount's Python text. */
  lemma PyCentsShape(c: nat) returns (frac: string)
    ensures frac != [] && AllDigits(frac)
    ensures PyCentsText(c) == NatToString(c / 100) + "." + frac
    ensures DecimalValue(NatToString(c / 100), frac) == c as real / 100.0
  {
    var f := CentsTextShape(c);
    CentsSplit(c);
    if c % 100 == 0 {
      frac := "0";
      assert NatValue(frac) == 0;
    } else {
      frac := f;
    }
  }

  /** `PyAmountTextRoundTrip` for a negative amount. */
  lemma NegativePyAmountTextRoundTrip(x: real)
    requires WholeCents(x) && x < 0.0
    ensures ParsePyFloat(PyAmountText(x)) == Some(x)
  {
    NegativeCents(x);
    var c := (-x * 100.0).Floor;
    var v := PyCentsReadings(c);
    PyCentsReadingValue(c, v);
  }


  /** `PyAmountTextRoundTrip` for an amount that is not negative. */
  lemma UnsignedPyAmountTextRoundTrip(x: real)
    requires WholeCents(x) && x >= 0.0
    ensures ParsePyFloat(PyAmountText(x)) == Some(x)
  {
    var c := (x * 100.0).Floor;
    assert c as real / 100.0 == x;
    var v := PyCentsReadings(c);
    PyCentsReadingValue(c, v);
  }

  /** Reading back the text `csv.writer` gives a whole-cent amount yields the amount. */
  lemma PyAmountTextRoundTrip(x: real)
    requires WholeCents(x)
    ensures ParsePyFloat(PyAmountText(x)) == Some(x)
  {
    if x < 0.0 {
      NegativePyAmountTextRoundTrip(x);
    } else {
      UnsignedPyAmountTextRoundTrip(x);
    }
  }
}
