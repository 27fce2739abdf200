/**
 * The decimal parse the receiver applies to the trace-count header
 * (Go's `strconv.Atoi` on a 64-bit platform) and the formatting the
 * tracing client uses to write that header (`strconv.Itoa`).
 */
module Strconv {
  import opened Wrappers

  /** Bounds of Go's `int` on a 64-bit platform. */
  const MinInt: int := -0x8000_0000_0000_0000
  const MaxInt: int := 0x7fff_ffff_ffff_ffff

  predicate IsDigit(c: char)
  {
    '0' <= c <= '9'
  }

  predicate AllDigits(s: string)
  {
    forall i :: 0 <= i < |s| ==> IsDigit(s[i])
  }

  /** The value of a string of decimal digits, most significant first. */
  function DecimalValue(s: string): nat
    requires AllDigits(s)
  {
    if s == [] then 0 else DecimalValue(s[..|s| - 1]) * 10 + (s[|s| - 1] as int - '0' as int)
  }

  /**
   * An optional `+` or `-`, then one or more decimal digits, with a value
   * that fits in an `int`; anything else (empty, a bare sign, spaces,
   * underscores, overflow) is an error.
   */
  function Atoi(s: string): (r: Option<int>)
    ensures r.Some? ==> MinInt <= r.value <= MaxInt
    ensures r.Some? ==> |s| > 0 && (IsDigit(s[0]) || (|s| > 1 && (s[0] == '-' || s[0] == '+')))
    ensures r.Some? ==> forall i :: 0 < i < |s| ==> IsDigit(s[i])
    ensures r.Some? && r.value < 0 ==> s[0] == '-'
  {
    var signed := |s| > 0 && (s[0] == '-' || s[0] == '+');
    var digits := if signed then s[1..] else s;
    if digits == [] || !AllDigits(digits) then None
    else
      var v: int := if signed && s[0] == '-' then 0 - DecimalValue(digits) as int else DecimalValue(digits);
      if MinInt <= v <= MaxInt then Some(v) else None
  }

  function DigitChar(d: nat): (c: char)
    requires d < 10
    ensures IsDigit(c) && c as int - '0' as int == d
  {
    ('0' as int + d) as char
  }

  /** The shortest decimal digits of `n`. */
  function Digits(n: nat): (s: string)
    ensures s != [] && AllDigits(s)
  {
    if n < 10 then [DigitChar(n)] else Digits(n / 10) + [DigitChar(n % 10)]
  }

  /** A minus sign for a negative number, then the digits of its magnitude. */
  function FormatInt(n: int): (r: string)
    ensures |r| > 0 && (r[0] == '-' <==> n < 0)
    ensures AllDigits(if n < 0 then r[1..] else r)
  {
    if n < 0 then "-" + Digits(-n) else Digits(n)
  }

  lemma {:induction false} DigitsValue(n: nat)
    ensures DecimalValue(Digits(n)) == n
  {
    if n >= 10 {
      DigitsValue(n / 10);
      var s := Digits(n);
      assert s[..|s| - 1] == Digits(n / 10);
    }
  }

  /** Every count the client can format is read back unchanged. */
  lemma AtoiFormatInt(n: int)
    requires MinInt <= n <= MaxInt
    ensures Atoi(FormatInt(n)) == Some(n)
  {
    var s := FormatInt(n);
    if n < 0 {
      DigitsValue(-n);
      assert s[0] == '-' && s[1..] == Digits(-n);
    } else {
      DigitsValue(n);
      assert IsDigit(s[0]);
    }
  }
}
