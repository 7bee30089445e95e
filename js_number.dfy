/**
 * The part of JavaScript's number primitives the core relies on: `Number(s)`
 * applied to a query-parameter string, `Number.isInteger`, the truthiness of a
 * number, and `String(n)` for an integer `n`.
 *
 * `Number(s)` is modelled for the decimal forms: after trimming, an empty string
 * is 0, and an optional sign followed by digits with at most one decimal point
 * (at least one digit in all) is that value. Every other string is NaN here.
 */
module JsNumber {
  import opened JsText

  /** A JavaScript number: a finite value or NaN. */
  datatype Num = NaN | Finite(value: real)

  predicate IsDigit(c: char) {
    '0' <= c <= '9'
  }

  predicate AllDigits(s: string) {
    forall i :: 0 <= i < |s| ==> IsDigit(s[i])
  }

  function DigitValue(c: char): nat
    requires IsDigit(c)
  {
    c as int - '0' as int
  }

  function DigitChar(d: nat): (c: char)
    requires d < 10
    ensures IsDigit(c) && DigitValue(c) == d
  {
    ('0' as int + d) as char
  }

  /** The value of a string of decimal digits, most significant first. */
  function DigitsValue(ds: string): nat
    requires AllDigits(ds)
  {
    if ds == [] then 0 else DigitsValue(ds[..|ds| - 1]) * 10 + DigitValue(ds[|ds| - 1])
  }

  function Pow10(n: nat): (p: nat)
    ensures p >= 1
  {
    if n == 0 then 1 else 10 * Pow10(n - 1)
  }

  /** The number of leading decimal digits of `s`. */
  function LeadingDigits(s: string): (k: nat)
    ensures k <= |s| && AllDigits(s[..k])
    ensures k < |s| ==> !IsDigit(s[k])
  {
    if s != [] && IsDigit(s[0]) then
      var k := 1 + LeadingDigits(s[1..]);
      assert forall i :: 1 <= i < k ==> s[..k][i] == s[1..][..k - 1][i - 1];
      k
    else 0
  }

  function Negate(n: Num): Num {
    match n
    case NaN => NaN
    case Finite(v) => Finite(-v)
  }

  /** Digits with at most one decimal point, at least one digit in all. */
  function ParseUnsigned(t: string): (r: Num)
    ensures r.Finite? ==> r.value >= 0.0
    ensures t == [] ==> r == NaN
  {
    var k := LeadingDigits(t);
    if k == |t| then
      (if k == 0 then NaN else Finite(DigitsValue(t) as real))
    else if t[k] == '.' && AllDigits(t[k + 1..]) && (k > 0 || k + 1 < |t|) then
      var frac := t[k + 1..];
      Finite(DigitsValue(t[..k]) as real + DigitsValue(frac) as real / Pow10(|frac|) as real)
    else NaN
  }

  /** `Number(s)` for a parameter string `s`. */
  function ToNumber(s: string): (r: Num)
    ensures Trim(s) == [] ==> r == Finite(0.0)
    ensures r.Finite? && r.value < 0.0 ==> Trim(s)[0] == '-'
  {
    var t := Trim(s);
    if t == [] then Finite(0.0)
    else if t[0] == '-' then Negate(ParseUnsigned(t[1..]))
    else if t[0] == '+' then ParseUnsigned(t[1..])
    else ParseUnsigned(t)
  }

  /** `Number.isInteger(n)`. */
  predicate IsInteger(n: Num) {
    n.Finite? && n.value.Floor as real == n.value
  }

  /** The truthiness of a number: neither NaN nor zero. */
  predicate Truthy(n: Num) {
    n.Finite? && n.value != 0.0
  }

  /** `String(n)` for a natural number: its decimal digits. */
  function NatToString(n: nat): (s: string)
    ensures s != [] && AllDigits(s)
  {
    if n < 10 then [DigitChar(n)] else NatToString(n / 10) + [DigitChar(n % 10)]
  }

  /** `String(n)` for an integer. */
  function IntToString(n: int): string {
    if n < 0 then "-" + NatToString(-n) else NatToString(n)
  }

  lemma {:induction false} NatToStringValue(n: nat)
    ensures DigitsValue(NatToString(n)) == n
  {
    if n >= 10 {
      var s := NatToString(n);
      assert s[..|s| - 1] == NatToString(n / 10);
      NatToStringValue(n / 10);
    }
  }

  lemma ParseDigits(ds: string)
    requires ds != [] && AllDigits(ds)
    ensures ParseUnsigned(ds) == Finite(DigitsValue(ds) as real)
  {
  }

  lemma TrimDigits(s: string)
    requires s != [] && (IsDigit(s[0]) || s[0] == '-') && IsDigit(s[|s| - 1])
    ensures Trim(s) == s
  {
    assert !IsWhitespace(s[0]);
    assert TrimStart(s) == s;
    assert !IsWhitespace(s[|s| - 1]);
  }

  /** Reading back what `String(n)` wrote gives `n`: `Number(String(n)) === n`. */
  lemma IntRoundTrip(n: int)
    ensures ToNumber(IntToString(n)) == Finite(n as real)
  {
    var m: nat := if n < 0 then -n else n;
    var ds := NatToString(m);
    NatToStringValue(m);
    ParseDigits(ds);
    var s := IntToString(n);
    assert s[|s| - 1] == ds[|ds| - 1];
    TrimDigits(s);
    if n < 0 {
      assert s[0] == '-' && s[1..] == ds;
      assert ToNumber(s) == Negate(ParseUnsigned(ds));
    } else {
      assert s == ds && s[0] != '-' && s[0] != '+';
    }
  }

  /** A parameter that starts with a letter, such as "invalid", is not a number. */
  lemma LetterStartIsNaN(s: string)
    requires s != [] && 'a' <= s[0] <= 'z'
    ensures ToNumber(s) == NaN
  {
    var u := TrimStart(s);
    assert !IsWhitespace(s[0]);
    assert |s| - |u| == 0;
    assert u == s;
    var t := TrimEnd(u);
    assert |t| > 0;
    assert t[0] == s[0];
    assert LeadingDigits(t) == 0;
  }
}
