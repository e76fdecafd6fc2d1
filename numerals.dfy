/** The two integer domains of the order tool and their text forms: Rust's
    `str::parse::<u32>` and `str::parse::<i32>` (decimal `FromStr`), and the
    `Display` form that `writeln!("{}")` produces. */
module Numerals {

  import opened Wrappers

  const U32_MAX: int := 0xFFFF_FFFF
  const I32_MIN: int := -0x8000_0000
  const I32_MAX: int := 0x7FFF_FFFF

  type U32 = x: int | 0 <= x <= U32_MAX
  type I32 = x: int | I32_MIN <= x <= I32_MAX

  predicate IsDigit(c: char)
  {
    '0' <= c <= '9'
  }

  predicate AllDigits(s: string)
  {
    forall i :: 0 <= i < |s| ==> IsDigit(s[i])
  }

  function DigitValue(c: char): nat
    requires IsDigit(c)
  {
    (c as int) - ('0' as int)
  }

  function DigitChar(d: nat): (c: char)
    requires d < 10
    ensures IsDigit(c) && DigitValue(c) == d
  {
    ('0' as int + d) as char
  }

  /** The value of a string of decimal digits, most significant first. */
  function DigitsValue(s: string): nat
    requires AllDigits(s)
  {
    if s == [] then 0 else 10 * DigitsValue(s[..|s| - 1]) + DigitValue(s[|s| - 1])
  }

  /** The digit loop of `from_str_radix` with radix 10: at least one digit and
      nothing but ASCII digits. */
  function ParseDigits(s: string): Option<nat>
  {
    if s != [] && AllDigits(s) then Some(DigitsValue(s)) else None
  }

  /** The digits after an optional leading `'+'`. */
  function WithoutPlus(s: string): string
  {
    if s != [] && s[0] == '+' then s[1..] else s
  }

  /** `s.parse::<u32>()`: an optional `'+'`, then decimal digits whose value
      fits in 32 bits; a `'-'` is not a digit, so no negative form parses. */
  function ParseU32(s: string): Option<U32>
  {
    match ParseDigits(WithoutPlus(s))
    case Some(v) => if v <= U32_MAX then Some(v) else None
    case None => None
  }

  /** `s.parse::<i32>()`: an optional `'+'` or `'-'`, then decimal digits whose
      signed value lies in `I32_MIN..=I32_MAX`. */
  function ParseI32(s: string): Option<I32>
  {
    if s != [] && s[0] == '-' then
      match ParseDigits(s[1..])
      case Some(v) => if v <= -I32_MIN then Some(0 - v as int) else None
      case None => None
    else
      match ParseDigits(WithoutPlus(s))
      case Some(v) => if v <= I32_MAX then Some(v) else None
      case None => None
  }

  /** `Display` for an unsigned integer: decimal digits without leading zeros. */
  function DecimalString(n: nat): (s: string)
    ensures s != [] && AllDigits(s)
    ensures s[0] == '0' ==> n == 0
  {
    if n < 10 then [DigitChar(n)] else DecimalString(n / 10) + [DigitChar(n % 10)]
  }

  /** `Display` for a signed integer: a `'-'` before the digits of a negative one. */
  function SignedDecimalString(v: int): string
  {
    if v < 0 then "-" + DecimalString(-v) else DecimalString(v)
  }

  /** The digits `DecimalString` writes denote the number written. */
  lemma {:induction false} DigitsValueOfDecimalString(n: nat)
    ensures DigitsValue(DecimalString(n)) == n
  {
    var s := DecimalString(n);
    if n >= 10 {
      assert s[..|s| - 1] == DecimalString(n / 10);
      DigitsValueOfDecimalString(n / 10);
    }
  }

  /** Parsing the printed form of a `u32` gives it back. */
  lemma ParseU32OfDecimalString(n: U32)
    ensures ParseU32(DecimalString(n)) == Some(n)
  {
    DigitsValueOfDecimalString(n);
  }

  /** A number too large for 32 bits does not parse as `u32`, with or without
      a `'+'`. */
  lemma ParseU32OutOfRange(n: nat)
    requires n > U32_MAX
    ensures ParseU32(DecimalString(n)) == None
    ensures ParseU32("+" + DecimalString(n)) == None
  {
    DigitsValueOfDecimalString(n);
    assert WithoutPlus("+" + DecimalString(n)) == DecimalString(n);
  }

  /** A `'-'` sign makes any string unparseable as `u32`. */
  lemma ParseU32RejectsMinus(s: string)
    requires s != [] && s[0] == '-'
    ensures ParseU32(s) == None
  {
    assert !IsDigit(WithoutPlus(s)[0]);
  }

  /** Parsing the printed form of an `i32` gives it back. */
  lemma ParseI32OfSignedDecimalString(v: I32)
    ensures ParseI32(SignedDecimalString(v)) == Some(v)
  {
    var s := SignedDecimalString(v);
    if v < 0 {
      var m: nat := -(v as int);
      DigitsValueOfDecimalString(m);
      assert s[1..] == DecimalString(m);
    } else {
      DigitsValueOfDecimalString(v);
    }
  }

  /** A number outside the `i32` range, printed in either sign, does not parse
      as `i32`. */
  lemma ParseI32OutOfRange(v: int)
    requires v < I32_MIN || v > I32_MAX
    ensures ParseI32(SignedDecimalString(v)) == None
  {
    var s := SignedDecimalString(v);
    if v < 0 {
      DigitsValueOfDecimalString(-v);
      assert s[1..] == DecimalString(-v);
    } else {
      DigitsValueOfDecimalString(v);
    }
  }

  /** Without a `'-'`, `i32` accepts exactly the `u32` texts whose value is at
      most `I32_MAX`, with the same value. */
  lemma ParseI32AgreesWithU32(s: string)
    requires s == [] || s[0] != '-'
    ensures ParseI32(s).Some? <==> ParseU32(s).Some? && ParseU32(s).value <= I32_MAX
    ensures ParseI32(s).Some? ==> ParseI32(s).value == ParseU32(s).value
  {
  }
}
