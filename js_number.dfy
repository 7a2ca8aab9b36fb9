/**
 * Decimal text and the JavaScript numeric conversions the service uses:
 * `n.toString()` for a non-negative integer, `Number(s)` and `parseInt(s, 10)`.
 * A JavaScript NaN is modelled as `None`.
 */
module JsNumber {
  import opened Wrappers
  import opened JsText

  predicate IsDigit(c: char) {
    '0' <= c <= '9'
  }

  predicate AllDigits(s: string) {
    forall i :: 0 <= i < |s| ==> IsDigit(s[i])
  }

  function DigitChar(d: nat): (c: char)
    requires d < 10
    ensures IsDigit(c)
  {
    ('0' as int + d) as char
  }

  function DigitValue(c: char): (d: nat)
    requires IsDigit(c)
    ensures d < 10 && DigitChar(d) == c
  {
    c as int - '0' as int
  }

  function Pow10(k: nat): (p: nat)
    ensures p >= 1
  {
    if k == 0 then 1 else 10 * Pow10(k - 1)
  }

  /** The value of a string of decimal digits, most significant first. */
  function DigitsValue(s: string): nat
    requires AllDigits(s)
  {
    if s == [] then 0 else 10 * DigitsValue(s[..|s| - 1]) + DigitValue(s[|s| - 1])
  }

  /** `n.toString()` for a non-negative integer: digits, no sign, no leading zero. */
  function Decimal(n: nat): (s: string)
    ensures |s| >= 1 && AllDigits(s)
    ensures s[0] == '0' ==> n == 0
  {
    if n < 10 then [DigitChar(n)] else Decimal(n / 10) + [DigitChar(n % 10)]
  }

  /** Reading the decimal text of `n` gives `n` back. */
  lemma {:induction false} DecimalValue(n: nat)
    ensures DigitsValue(Decimal(n)) == n
  {
    if n >= 10 {
      var s := Decimal(n);
      assert s[..|s| - 1] == Decimal(n / 10);
      DecimalValue(n / 10);
    }
  }

  /** Distinct numbers have distinct decimal texts. */
  lemma DecimalInjective(m: nat, n: nat)
    requires Decimal(m) == Decimal(n)
    ensures m == n
  {
    DecimalValue(m);
    DecimalValue(n);
  }

  /** Length of the longest prefix of `s` made of decimal digits. */
  function DigitRun(s: string): (k: nat)
    ensures k <= |s| && AllDigits(s[..k])
    ensures k < |s| ==> !IsDigit(s[k])
  {
    if s != [] && IsDigit(s[0]) then
      var k := 1 + DigitRun(s[1..]);
      assert s[..k] == [s[0]] + s[1..][..k - 1];
      k
    else 0
  }

  /**
   * An unsigned decimal literal: digits, optionally followed by '.' and more digits,
   * with at least one digit in all. Anything else is NaN.
   */
  function ParseUnsigned(t: string): Option<real> {
    var k := DigitRun(t);
    var whole := DigitsValue(t[..k]) as real;
    var rest := t[k..];
    if rest == [] then
      if k == 0 then None else Some(whole)
    else if rest[0] == '.' && AllDigits(rest[1..]) && (k > 0 || |rest| > 1) then
      Some(whole + DigitsValue(rest[1..]) as real / Pow10(|rest| - 1) as real)
    else None
  }

  /**
   * `Number(s)`: surrounding whitespace is ignored, the empty (or all-blank) string is 0,
   * otherwise an optionally signed decimal literal; `None` is NaN.
   */
  function ParseNumber(s: string): (r: Option<real>)
    ensures Trim(s) == "" ==> r == Some(0.0)
  {
    var t := Trim(s);
    if t == "" then Some(0.0)
    else if t[0] == '-' then
      match ParseUnsigned(t[1..])
      case Some(v) => Some(-v)
      case None => None
    else if t[0] == '+' then ParseUnsigned(t[1..])
    else ParseUnsigned(t)
  }

  /** `Number(n.toString()) == n`: the timestamp text in a token reads back as the timestamp. */
  lemma NumberOfDecimal(n: nat)
    ensures ParseNumber(Decimal(n)) == Some(n as real)
  {
    ParseNumberOfDigits(Decimal(n));
    DecimalValue(n);
  }

  /** `Number(s)` of a non-empty digit string is its value. */
  lemma ParseNumberOfDigits(s: string)
    requires |s| >= 1 && AllDigits(s)
    ensures ParseNumber(s) == Some(DigitsValue(s) as real)
  {
    assert IsDigit(s[0]);
    DigitsNoWhitespace(s);
    TrimNoWhitespace(s);
    ParseUnsignedOfDigits(s);
  }

  lemma DigitsNoWhitespace(s: string)
    requires AllDigits(s)
    ensures NoWhitespace(s)
  {
    forall i | 0 <= i < |s| ensures !IsWhitespace(s[i]) {
      assert IsDigit(s[i]);
    }
  }

  lemma {:induction false} DigitRunOfDigits(s: string)
    requires AllDigits(s)
    ensures DigitRun(s) == |s|
  {
    if s != [] {
      assert IsDigit(s[0]);
      DigitRunOfDigits(s[1..]);
    }
  }

  /** A non-empty digit string reads as its own value. */
  lemma ParseUnsignedOfDigits(s: string)
    requires |s| >= 1 && AllDigits(s)
    ensures ParseUnsigned(s) == Some(DigitsValue(s) as real)
  {
    DigitRunOfDigits(s);
    assert s[..|s|] == s;
    assert s[|s|..] == [];
  }

  /**
   * `parseInt(s, 10)`: leading whitespace skipped, an optional sign, then the longest run
   * of digits; trailing text is ignored; no digits at all is NaN.
   */
  function ParseInt(s: string): (r: Option<int>)
    ensures r.Some? <==>
      (var t := TrimStart(s);
       var body := if t != [] && (t[0] == '-' || t[0] == '+') then t[1..] else t;
       body != [] && IsDigit(body[0]))
  {
    var t := TrimStart(s);
    var negative := t != [] && t[0] == '-';
    var body := if t != [] && (t[0] == '-' || t[0] == '+') then t[1..] else t;
    var k := DigitRun(body);
    if k == 0 then None
    else
      var v: int := DigitsValue(body[..k]);
      Some(if negative then -v else v)
  }

  /** `parseInt(n.toString(), 10) == n`. */
  lemma ParseIntOfDecimal(n: nat)
    ensures ParseInt(Decimal(n)) == Some(n)
  {
    ParseIntOfDigits(Decimal(n));
    DecimalValue(n);
  }

  /** `parseInt(s, 10)` of a non-empty digit string is its value. */
  lemma ParseIntOfDigits(s: string)
    requires |s| >= 1 && AllDigits(s)
    ensures ParseInt(s) == Some(DigitsValue(s) as int)
  {
    assert IsDigit(s[0]);
    assert !IsWhitespace(s[0]);
    assert TrimStart(s) == s;
    assert s[0] != '-' && s[0] != '+';
    DigitRunOfDigits(s);
    assert s[..|s|] == s;
  }
}
