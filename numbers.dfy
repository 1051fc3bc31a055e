/**
 * Decimal integers as Rust's `str::parse` reads them and `Display` prints them.
 *
 * Rust's integer parser takes one optional leading `+` (and, for signed types,
 * `-`) followed by at least one ASCII digit, and fails when the value does not
 * fit the target type.
 */
module Numbers {
  import opened Wrappers
  import opened Text

  type u8 = x: int | 0 <= x < 256

  type u64 = x: int | 0 <= x <= 0xFFFF_FFFF_FFFF_FFFF

  const U8_MAX: nat := 255
  const U64_MAX: nat := 0xFFFF_FFFF_FFFF_FFFF
  const I64_MIN: int := -0x8000_0000_0000_0000
  const I64_MAX: int := 0x7FFF_FFFF_FFFF_FFFF

  predicate IsDigit(c: byte)
  {
    '0' <= c <= '9'
  }

  predicate AllDigits(s: Text)
  {
    forall i | 0 <= i < |s| :: IsDigit(s[i])
  }

  /** The value of a string of decimal digits, most significant first. */
  function DigitsValue(s: Text): nat
    requires AllDigits(s)
    decreases |s|
  {
    if s == [] then 0
    else DigitsValue(s[..|s| - 1]) * 10 + (s[|s| - 1] as int - '0' as int)
  }

  function Digit(d: nat): (c: byte)
    requires d < 10
    ensures IsDigit(c) && c as int - '0' as int == d
  {
    ('0' as int + d) as char
  }

  /** `n.to_string()` for a non-negative integer. */
  function DecimalText(n: nat): (s: Text)
    ensures |s| >= 1 && AllDigits(s)
    ensures DigitsValue(s) == n
    decreases n
  {
    if n < 10 then [Digit(n)]
    else
      var front := DecimalText(n / 10);
      var s := front + [Digit(n % 10)];
      assert s[..|s| - 1] == front;
      s
  }

  /** `n.to_string()` for a signed integer. */
  function SignedText(n: int): (s: Text)
    ensures |s| >= 1
    ensures s[0] == '-' <==> n < 0
  {
    if n < 0 then "-" + DecimalText(-n) else DecimalText(n)
  }

  /** `s.parse::<T>()` for an unsigned type whose largest value is `max`. */
  function ParseUnsigned(s: Text, max: nat): (r: Option<nat>)
    ensures r.Some? ==> r.value <= max
  {
    var digits := if |s| > 0 && s[0] == '+' then s[1..] else s;
    if digits == [] || !AllDigits(digits) then None
    else if DigitsValue(digits) <= max then Some(DigitsValue(digits))
    else None
  }

  /** `s.parse::<T>()` for a signed type with range `min..=max`. */
  function ParseSigned(s: Text, min: int, max: int): (r: Option<int>)
    requires min <= 0 <= max
    ensures r.Some? ==> min <= r.value <= max
  {
    if |s| > 0 && s[0] == '-' then
      var digits := s[1..];
      if digits == [] || !AllDigits(digits) then None
      else
        var v: int := 0 - DigitsValue(digits);
        if min <= v then Some(v) else None
    else
      match ParseUnsigned(s, max)
      case None => None
      case Some(v) => Some(v)
  }

  /** The kinds of `ParseIntError` that decimal parsing can give. */
  datatype IntErrorKind = Empty | InvalidDigit | PosOverflow | NegOverflow

  const MSG_EMPTY: Text := "cannot parse integer from empty string"
  const MSG_INVALID_DIGIT: Text := "invalid digit found in string"
  const MSG_POS_OVERFLOW: Text := "number too large to fit in target type"
  const MSG_NEG_OVERFLOW: Text := "number too small to fit in target type"

  /** `ParseIntError`'s `Display` text. */
  function IntErrorText(k: IntErrorKind): (t: Text)
    ensures |t| > 0
  {
    match k
    case Empty => MSG_EMPTY
    case InvalidDigit => MSG_INVALID_DIGIT
    case PosOverflow => MSG_POS_OVERFLOW
    case NegOverflow => MSG_NEG_OVERFLOW
  }

  /** A prefix of a digit string is worth no more than the whole. */
  lemma {:induction false} DigitsValuePrefix(s: Text, i: nat)
    requires AllDigits(s) && i <= |s|
    ensures AllDigits(s[..i]) && DigitsValue(s[..i]) <= DigitsValue(s)
    decreases |s| - i
  {
    if i < |s| {
      DigitsValuePrefix(s, i + 1);
      assert s[..i + 1][..i] == s[..i];
    } else {
      assert s[..i] == s;
    }
  }

  /**
   * Rust's digit loop from position `i`: the digits are read left to right,
   * and the first non-digit, or the first digit after which the value
   * exceeds `max`, stops it with its error.
   */
  function ScanDigits(d: Text, i: nat, max: nat): (r: Option<IntErrorKind>)
    requires i <= |d| && AllDigits(d[..i]) && DigitsValue(d[..i]) <= max
    ensures r.None? <==> AllDigits(d) && DigitsValue(d) <= max
    ensures r.Some? ==> r.value == InvalidDigit || r.value == PosOverflow
    decreases |d| - i
  {
    if i == |d| then
      assert d[..i] == d;
      None
    else if !IsDigit(d[i]) then Some(InvalidDigit)
    else
      assert d[..i + 1][..i] == d[..i];
      if DigitsValue(d[..i + 1]) <= max then ScanDigits(d, i + 1, max)
      else if AllDigits(d) then
        DigitsValuePrefix(d, i + 1);
        Some(PosOverflow)
      else Some(PosOverflow)
  }

  /**
   * Why `s.parse::<T>()` fails for an unsigned type whose largest value is
   * `max`: an empty string, a lone sign or a non-digit, or a value past
   * `max`, whichever the left-to-right reading meets first.
   */
  function UnsignedError(s: Text, max: nat): (r: Option<IntErrorKind>)
    ensures r.None? <==> ParseUnsigned(s, max).Some?
    ensures r == Some(Empty) <==> s == []
    ensures r != Some(NegOverflow)
  {
    if s == [] then Some(Empty)
    else
      var digits := if s[0] == '+' then s[1..] else s;
      if digits == [] then Some(InvalidDigit)
      else
        assert digits[..0] == [];
        ScanDigits(digits, 0, max)
  }

  /**
   * Why `s.parse::<T>()` fails for a signed type with range `min..=max`; a
   * magnitude past `-min` after a `-` is `NegOverflow`.
   */
  function SignedError(s: Text, min: int, max: int): (r: Option<IntErrorKind>)
    requires min <= 0 <= max
    ensures r.None? <==> ParseSigned(s, min, max).Some?
    ensures r == Some(Empty) <==> s == []
    ensures r == Some(NegOverflow) ==> s[0] == '-'
  {
    if |s| > 0 && s[0] == '-' then
      if |s| == 1 then Some(InvalidDigit)
      else
        assert s[1..][..0] == [];
        var e := ScanDigits(s[1..], 0, -min);
        if e == Some(PosOverflow) then Some(NegOverflow) else e
    else UnsignedError(s, max)
  }

  /** Printing a value in range and parsing it back gives the value. */
  lemma ParseUnsignedDecimal(n: nat, max: nat)
    requires n <= max
    ensures ParseUnsigned(DecimalText(n), max) == Some(n)
  {
  }

  lemma ParseSignedText(n: int, min: int, max: int)
    requires min <= 0 <= max && min <= n <= max
    ensures ParseSigned(SignedText(n), min, max) == Some(n)
  {
    if n < 0 {
      assert SignedText(n)[1..] == DecimalText(-n);
    }
  }

  /** A printed number has no sign, so `+` and `-` never start it. */
  lemma DecimalTextHasNoSeparators(n: nat, c: byte)
    requires !IsDigit(c)
    ensures c !in DecimalText(n)
  {
  }
}
