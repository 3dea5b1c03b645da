/**
 * The small part of the JavaScript runtime that the request handlers depend on:
 * the values a JSON request body can carry in the fields they read, the
 * truthiness test behind `if (!x)`, the `toString()` conversion, and the
 * six-digit code formula `Math.floor(100000 + Math.random() * 900000)`.
 */
module Js {

  datatype Option<T> = None | Some(value: T)

  /** Largest integer a JavaScript number represents exactly (Number.MAX_SAFE_INTEGER). */
  const MaxSafeInteger: int := 9007199254740991

  type SafeInteger = n: int | -MaxSafeInteger <= n <= MaxSafeInteger

  /**
   * A scalar request value. `Undefined` is a field absent from the body.
   * Numbers are the integral ones a JSON body can carry exactly.
   */
  datatype JsValue =
    | Undefined
    | Null
    | Bool(b: bool)
    | Num(n: SafeInteger)
    | Str(s: string)

  /** The value is truthy, i.e. `!v` is false. */
  predicate Truthy(v: JsValue)
  {
    match v
    case Undefined => false
    case Null => false
    case Bool(b) => b
    case Num(n) => n != 0
    case Str(s) => s != ""
  }

  // ----- decimal notation -----

  predicate IsDigit(c: char)
  {
    '0' <= c <= '9'
  }

  function DigitChar(d: nat): (c: char)
    requires d < 10
    ensures IsDigit(c)
  {
    ['0', '1', '2', '3', '4', '5', '6', '7', '8', '9'][d]
  }

  function DigitValue(c: char): (d: nat)
    requires IsDigit(c)
    ensures d < 10 && DigitChar(d) == c
  {
    (c as int - '0' as int)
  }

  /** The shortest decimal notation of `n`, as `Number.prototype.toString()` writes it. */
  function Decimal(n: nat): (s: string)
    ensures |s| >= 1
    ensures forall i :: 0 <= i < |s| ==> IsDigit(s[i])
  {
    if n < 10 then [DigitChar(n)] else Decimal(n / 10) + [DigitChar(n % 10)]
  }

  /** Reads a string of decimal digits back as a number: the inverse of Decimal. */
  function ParseDecimal(s: string): nat
    requires forall i :: 0 <= i < |s| ==> IsDigit(s[i])
  {
    if s == [] then 0 else ParseDecimal(s[..|s| - 1]) * 10 + DigitValue(s[|s| - 1])
  }

  lemma {:induction false} DecimalRoundTrip(n: nat)
    ensures ParseDecimal(Decimal(n)) == n
  {
    if n >= 10 {
      var s := Decimal(n);
      assert s[..|s| - 1] == Decimal(n / 10);
      DecimalRoundTrip(n / 10);
    }
  }

  /** Distinct numbers have distinct decimal notations. */
  lemma DecimalInjective(m: nat, n: nat)
    requires Decimal(m) == Decimal(n)
    ensures m == n
  {
    DecimalRoundTrip(m);
    DecimalRoundTrip(n);
  }

  /** A decimal notation has no leading zero, except the notation of zero itself. */
  lemma {:induction false} DecimalNoLeadingZero(n: nat)
    ensures Decimal(n)[0] == '0' <==> n == 0
  {
    if n >= 10 {
      DecimalNoLeadingZero(n / 10);
    }
  }

  /** A number in [10^k, 10^(k+1)) has k+1 digits. */
  lemma {:induction false} DecimalLength(n: nat, k: nat)
    requires Pow10(k) <= n < Pow10(k + 1)
    ensures |Decimal(n)| == k + 1
  {
    if k > 0 {
      DecimalLength(n / 10, k - 1);
    }
  }

  function Pow10(k: nat): (p: nat)
    ensures p >= 1
  {
    if k == 0 then 1 else 10 * Pow10(k - 1)
  }

  /** What `Number.prototype.toString()` gives for an integral number. */
  function NumberToString(n: int): (s: string)
    ensures n >= 0 ==> s == Decimal(n)
    ensures |s| >= 1 && (IsDigit(s[0]) <==> n >= 0)
  {
    if n < 0 then "-" + Decimal(-n) else Decimal(n)
  }

  /** What `v.toString()` gives; calling it on `undefined` or `null` throws, hence the precondition. */
  function ToString(v: JsValue): (s: string)
    requires !v.Undefined? && !v.Null?
    // a non-negative number is written in digits that read back as the number
    ensures v.Num? && v.n >= 0 ==>
              (forall i :: 0 <= i < |s| ==> IsDigit(s[i])) && ParseDecimal(s) == v.n
    // a negative number and a boolean start with something other than a digit
    ensures v.Num? && v.n < 0 ==> |s| >= 1 && s[0] == '-'
    ensures v.Bool? ==> |s| >= 1 && !IsDigit(s[0])
    // a string is its own string form
    ensures v.Str? ==> s == v.s
  {
    match v
    case Bool(b) => if b then "true" else "false"
    case Num(n) =>
      if n >= 0 then DecimalRoundTrip(n); NumberToString(n) else NumberToString(n)
    case Str(s) => s
  }

  /**
   * `x.toString()` equals the notation of the number `stored` exactly when `x`
   * is that number or the string that writes it: no other number, no boolean
   * and no other string (one with a leading zero or a sign, say) matches.
   */
  lemma ToStringMatchesDecimal(x: JsValue, stored: nat)
    requires !x.Undefined? && !x.Null?
    ensures ToString(x) == Decimal(stored) <==>
              (x.Num? && x.n == stored) || x == Str(Decimal(stored))
  {
    if x.Num? && x.n >= 0 && ToString(x) == Decimal(stored) {
      DecimalInjective(x.n, stored);
    }
  }

  // ----- one-time codes -----

  const CodeMin: int := 100000
  const CodeMax: int := 999999

  /**
   * `Math.floor(100000 + Math.random() * 900000)` for a value `rnd` of
   * `Math.random()`, which lies in [0, 1).
   */
  function GenerateCode(rnd: real): (code: nat)
    requires 0.0 <= rnd < 1.0
    ensures CodeMin <= code <= CodeMax
  {
    (100000.0 + rnd * 900000.0).Floor
  }

  /** A string of six decimal digits without a leading zero. */
  predicate IsSixDigitCode(s: string)
  {
    |s| == 6 && s[0] != '0' && forall i :: 0 <= i < |s| ==> IsDigit(s[i])
  }

  /** The string form of a generated code has six digits and reads back as the code. */
  lemma GeneratedCodeString(rnd: real)
    requires 0.0 <= rnd < 1.0
    ensures IsSixDigitCode(Decimal(GenerateCode(rnd)))
    ensures ParseDecimal(Decimal(GenerateCode(rnd))) == GenerateCode(rnd)
    ensures CodeMin <= ParseDecimal(Decimal(GenerateCode(rnd))) <= CodeMax
  {
    var code := GenerateCode(rnd);
    assert Pow10(5) == 100000 && Pow10(6) == 1000000;
    DecimalLength(code, 5);
    DecimalNoLeadingZero(code);
    DecimalRoundTrip(code);
  }
}
