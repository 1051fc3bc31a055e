/**
 * Terminal colours of tags and the two textual forms they are read from.
 *
 * A colour is one of the sixteen named ANSI colours or a direct 24-bit
 * colour. Tags written by the oldest format store a colour as its SGR
 * foreground parameter string (ECMA-48 section 8.3.117; the bright codes
 * 90-97 and the `38;2;r;g;b` direct-colour form are terminal extensions);
 * users give colours as hexadecimal `rrggbb` triples.
 */
module Colors {
  import opened Wrappers
  import opened Text
  import opened Numbers
  import CoreErrors

  datatype Color =
    | Black | Red | Green | Yellow | Blue | Magenta | Cyan | White
    | BrightBlack | BrightRed | BrightGreen | BrightYellow
    | BrightBlue | BrightMagenta | BrightCyan | BrightWhite
    | TrueColor(r: u8, g: u8, b: u8)
  {
    predicate IsNamed()
    {
      !TrueColor?
    }
  }

  /** The colours a new tag may be given at random. */
  const DEFAULT_COLORS: seq<Color> := [
    Red, Green, Blue, Yellow, Cyan, White, Magenta,
    BrightRed, BrightGreen, BrightYellow, BrightBlue, BrightMagenta, BrightCyan
  ]

  const SEMICOLON: byte := ';'
  /** `38;2;`: SGR 38 (extended foreground colour) with selector 2 (direct colour). */
  const EXTENDED: Text := "38"
  const DIRECT: Text := "2"
  const DIRECT_PREFIX: Text := EXTENDED + [SEMICOLON] + DIRECT + [SEMICOLON]

  /**
   * The SGR foreground parameter of a colour, as terminals and the `colored`
   * library write it: 30-37 for the base colours, 90-97 for the bright ones
   * and `38;2;r;g;b` for a direct colour.
   */
  function FgCode(c: Color): (s: Text)
    ensures c.IsNamed() ==> |s| == 2
    ensures c.TrueColor? ==> DIRECT_PREFIX <= s
  {
    match c
    case Black => "30"
    case Red => "31"
    case Green => "32"
    case Yellow => "33"
    case Blue => "34"
    case Magenta => "35"
    case Cyan => "36"
    case White => "37"
    case BrightBlack => "90"
    case BrightRed => "91"
    case BrightGreen => "92"
    case BrightYellow => "93"
    case BrightBlue => "94"
    case BrightMagenta => "95"
    case BrightCyan => "96"
    case BrightWhite => "97"
    case TrueColor(r, g, b) =>
      DIRECT_PREFIX + DecimalText(r) + [SEMICOLON] + DecimalText(g) + [SEMICOLON] + DecimalText(b)
  }

  /**
   * `color_from_fg_str`: one of the sixteen two-digit codes, or `38;2;`
   * followed by at least three `;`-separated fields of which the first three
   * parse as `u8`; anything else is `None`.
   */
  function ColorFromFgStr(s: Text): (r: Option<Color>)
    ensures r.Some? && r.value.TrueColor? ==> DIRECT_PREFIX <= s
  {
    if s == "30" then Some(Black)
    else if s == "31" then Some(Red)
    else if s == "32" then Some(Green)
    else if s == "33" then Some(Yellow)
    else if s == "34" then Some(Blue)
    else if s == "35" then Some(Magenta)
    else if s == "36" then Some(Cyan)
    else if s == "37" then Some(White)
    else if s == "90" then Some(BrightBlack)
    else if s == "91" then Some(BrightRed)
    else if s == "92" then Some(BrightGreen)
    else if s == "93" then Some(BrightYellow)
    else if s == "94" then Some(BrightBlue)
    else if s == "95" then Some(BrightMagenta)
    else if s == "96" then Some(BrightCyan)
    else if s == "97" then Some(BrightWhite)
    else if DIRECT_PREFIX <= s then DirectColor(Split(s, [SEMICOLON]))
    else None
  }

  /** A named colour is read only from its own code. */
  lemma NamedFromOwnCode(s: Text)
    ensures var r := ColorFromFgStr(s);
      r.Some? && r.value.IsNamed() ==> s == FgCode(r.value)
  {
    if |s| == 2 && s[0] == '3' {
      BaseFromOwnCode(s);
    } else if |s| == 2 && s[0] == '9' {
      BrightFromOwnCode(s);
    } else if DIRECT_PREFIX <= s {
      assert |s| > 2;
    }
  }

  /** The codes `3x` give the base colours back only from their own code. */
  lemma BaseFromOwnCode(s: Text)
    requires |s| == 2 && s[0] == '3'
    ensures var r := ColorFromFgStr(s);
      r.Some? && r.value.IsNamed() ==> s == FgCode(r.value)
  {
  }

  /** The codes `9x` give the bright colours back only from their own code. */
  lemma BrightFromOwnCode(s: Text)
    requires |s| == 2 && s[0] == '9'
    ensures var r := ColorFromFgStr(s);
      r.Some? && r.value.IsNamed() ==> s == FgCode(r.value)
  {
  }

  /** Fields 2, 3 and 4 of a split `38;2;r;g;b` string as a direct colour. */
  function DirectColor(fields: seq<Text>): (r: Option<Color>)
    ensures r.Some? ==> r.value.TrueColor?
    ensures r.Some? <==>
      |fields| >= 5 && ParseUnsigned(fields[2], U8_MAX).Some?
      && ParseUnsigned(fields[3], U8_MAX).Some? && ParseUnsigned(fields[4], U8_MAX).Some?
    ensures r.Some? ==> r.value == TrueColor(ParseUnsigned(fields[2], U8_MAX).value,
      ParseUnsigned(fields[3], U8_MAX).value, ParseUnsigned(fields[4], U8_MAX).value)
  {
    if |fields| < 5 then None
    else
      match (ParseUnsigned(fields[2], U8_MAX), ParseUnsigned(fields[3], U8_MAX), ParseUnsigned(fields[4], U8_MAX))
      case (Some(r), Some(g), Some(b)) => Some(TrueColor(r, g, b))
      case _ => None
  }

  /** The sixteen named codes are read back as the colour they were written for. */
  lemma NamedCodeRoundTrip(c: Color)
    requires c.IsNamed()
    ensures ColorFromFgStr(FgCode(c)) == Some(c)
  {
  }

  /**
   * A written direct colour is read back, also when further `;` fields
   * follow it: only the first three fields after `38;2;` are looked at.
   */
  lemma DirectCodeRoundTrip(r: u8, g: u8, b: u8, extra: Text)
    requires extra == [] || extra[0] == SEMICOLON
    ensures ColorFromFgStr(FgCode(TrueColor(r, g, b)) + extra) == Some(TrueColor(r, g, b))
  {
    var dr, dg, db := DecimalText(r), DecimalText(g), DecimalText(b);
    DecimalTextHasNoSeparators(r, SEMICOLON);
    DecimalTextHasNoSeparators(g, SEMICOLON);
    DecimalTextHasNoSeparators(b, SEMICOLON);
    var s := FgCode(TrueColor(r, g, b)) + extra;
    DirectCodePieces(r, g, b, extra);
    SplitFive(EXTENDED, DIRECT, dr, dg, db, SEMICOLON, extra);
    FromDirectPrefix(s);
    ParseUnsignedDecimal(r, U8_MAX);
    ParseUnsignedDecimal(g, U8_MAX);
    ParseUnsignedDecimal(b, U8_MAX);
  }

  /** A direct code is its five fields joined by semicolons. */
  lemma DirectCodePieces(r: u8, g: u8, b: u8, extra: Text)
    ensures FgCode(TrueColor(r, g, b)) + extra
      == EXTENDED + [SEMICOLON] + DIRECT + [SEMICOLON] + DecimalText(r) + [SEMICOLON]
        + DecimalText(g) + [SEMICOLON] + DecimalText(b) + extra
  {
  }

  /** A string after the direct-colour prefix is read by its fields. */
  lemma FromDirectPrefix(s: Text)
    requires DIRECT_PREFIX <= s
    ensures ColorFromFgStr(s) == DirectColor(Split(s, [SEMICOLON]))
  {
    assert |s| > 2 && s[2] == SEMICOLON;
  }

  /** Every colour is read back from the code written for it. */
  lemma FgCodeRoundTrip(c: Color)
    ensures ColorFromFgStr(FgCode(c)) == Some(c)
  {
    if c.TrueColor? {
      DirectCodeRoundTrip(c.r, c.g, c.b, []);
      assert FgCode(c) + [] == FgCode(c);
    } else {
      NamedCodeRoundTrip(c);
    }
  }

  /** Distinct colours have distinct codes, so the named codes name distinct colours. */
  lemma FgCodeInjective(c: Color, d: Color)
    requires FgCode(c) == FgCode(d)
    ensures c == d
  {
    FgCodeRoundTrip(c);
    FgCodeRoundTrip(d);
  }

  predicate IsHexDigit(ch: byte)
  {
    '0' <= ch <= '9' || 'A' <= ch <= 'F' || 'a' <= ch <= 'f'
  }

  /**
   * `hex_val`: the value of a hexadecimal digit in either case. Any other
   * byte is read as 0 rather than rejected.
   */
  function HexVal(ch: byte): (v: nat)
    ensures v < 16
    ensures !IsHexDigit(ch) ==> v == 0
  {
    if '0' <= ch <= '9' then ch as int - 48
    else if 'A' <= ch <= 'F' then ch as int - 55
    else if 'a' <= ch <= 'f' then ch as int - 87
    else 0
  }

  /** The value of two hexadecimal digits, high digit first. */
  function PairValue(h: byte, l: byte): u8
  {
    16 * HexVal(h) + HexVal(l)
  }

  /**
   * `hex_chars_to_u8` on the bits, as the source computes it: the high
   * digit or-ed into a zero byte, shifted into the top nibble, then the low
   * digit or-ed in. It is the pair's value, so `ParseHex` reads each pair
   * through `PairValue`.
   */
  function HexCharsToU8(h: byte, l: byte): (r: u8)
    ensures r == PairValue(h, l)
  {
    var high, low := HexVal(h) as bv8, HexVal(l) as bv8;
    var result: bv8 := 0;
    var result := result | high;
    var result := result << 4;
    var result := result | low;
    NibbleBits(HexVal(h));
    NibbleBits(HexVal(l));
    NibblesValue(high, low);
    result as int
  }

  /** A value below 16 keeps its value as a byte of bits. */
  lemma NibbleBits(v: nat)
    requires v < 16
    ensures (v as bv8) < 16 && (v as bv8) as int == v
  {
  }

  /** Shifting one nibble up and or-ing in another is `16 * high + low`. */
  lemma NibblesValue(high: bv8, low: bv8)
    requires high < 16 && low < 16
    ensures (((0 | high) << 4) | low) as int == 16 * (high as int) + low as int
  {
    assert (((0 | high) << 4) | low) == high * 16 + low;
    assert (high * 16 + low) as int == 16 * (high as int) + low as int;
  }

  /**
   * `parse_hex`: the first three two-byte chunks as `u8` values. The source
   * indexes both bytes of every chunk it reads, so a string of odd length
   * shorter than 6 is outside its domain.
   */
  function ParseHex(color: Text): (r: Option<(u8, u8, u8)>)
    requires |color| >= 6 || |color| % 2 == 0
    ensures r.Some? <==> |color| >= 6
    ensures r.Some? ==> r.value.0 == 16 * HexVal(color[0]) + HexVal(color[1])
    ensures r.Some? ==> r.value.1 == 16 * HexVal(color[2]) + HexVal(color[3])
    ensures r.Some? ==> r.value.2 == 16 * HexVal(color[4]) + HexVal(color[5])
  {
    if |color| < 6 then None
    else Some((PairValue(color[0], color[1]), PairValue(color[2], color[3]), PairValue(color[4], color[5])))
  }

  const HEX_PREFIX: Text := "0x"
  const HASH: Text := "#"

  /** What `parse_color` reads as the digits: after one `0x`, else after one `#`, else all. */
  function HexBody(color: Text): (body: Text)
    ensures HEX_PREFIX <= color ==> HEX_PREFIX + body == color
    ensures !(HEX_PREFIX <= color) && HASH <= color ==> HASH + body == color
    ensures !(HEX_PREFIX <= color) && !(HASH <= color) ==> body == color
  {
    match StripPrefix(color, HEX_PREFIX)
    case Some(c) => c
    case None =>
      match StripPrefix(color, HASH)
      case Some(c) => c
      case None => color
  }

  /**
   * `parse_color`: a direct colour from six bytes of hexadecimal digits; any
   * other length is `InvalidColor` carrying the whole input.
   */
  function ParseColor(color: Text): (r: Result<Color, CoreErrors.Error>)
    ensures r.Ok? <==> |HexBody(color)| == 6
    ensures r.Err? ==> r.error == CoreErrors.InvalidColor(color)
    ensures r.Ok? ==> r.value == TrueColor(
      16 * HexVal(HexBody(color)[0]) + HexVal(HexBody(color)[1]),
      16 * HexVal(HexBody(color)[2]) + HexVal(HexBody(color)[3]),
      16 * HexVal(HexBody(color)[4]) + HexVal(HexBody(color)[5]))
  {
    var candidate :=
      match StripPrefix(color, HEX_PREFIX)
      case Some(c) => if |c| == 6 then Some(c) else None
      case None =>
        match StripPrefix(color, HASH)
        case Some(c) => if |c| == 6 then Some(c) else None
        case None => if |color| == 6 then Some(color) else None;
    match candidate
    case Some(digits) =>
      (match ParseHex(digits)
       case Some((r, g, b)) => Ok(TrueColor(r, g, b))
       case None => Err(CoreErrors.InvalidColor(color)))
    case None => Err(CoreErrors.InvalidColor(color))
  }

  /** The digit for a value below 16, lower- or upper-case. */
  function HexDigit(v: nat, upper: bool): (ch: byte)
    requires v < 16
    ensures IsHexDigit(ch)
  {
    if v < 10 then ('0' as int + v) as char
    else if upper then ('A' as int + v - 10) as char
    else ('a' as int + v - 10) as char
  }

  /** Two hexadecimal digits of a byte value, high digit first. */
  function HexPair(v: u8, upper: bool): (s: Text)
    ensures |s| == 2
  {
    [HexDigit(v / 16, upper), HexDigit(v % 16, upper)]
  }

  /** `HexVal` inverts `HexDigit` in both cases: parsing is case-insensitive. */
  lemma HexValOfDigit(v: nat, upper: bool)
    requires v < 16
    ensures HexVal(HexDigit(v, upper)) == v
  {
  }

  /** The two digits of a byte read back give the byte. */
  lemma HexPairValue(v: u8, upper: bool)
    ensures 16 * HexVal(HexPair(v, upper)[0]) + HexVal(HexPair(v, upper)[1]) == v
  {
    HexValOfDigit(v / 16, upper);
    HexValOfDigit(v % 16, upper);
  }

  /** With a recognised prefix in front of six hexadecimal digits, the digits are the body. */
  lemma HexBodyAfterPrefix(prefix: Text, digits: Text)
    requires prefix == [] || prefix == HASH || prefix == HEX_PREFIX
    requires |digits| == 6 && IsHexDigit(digits[0]) && IsHexDigit(digits[1])
    ensures HexBody(prefix + digits) == digits
  {
    var s := prefix + digits;
    if prefix == [] {
      assert s == digits;
      assert !(HEX_PREFIX <= s) by { assert s[1] != 'x'; }
      assert !(HASH <= s) by { assert s[0] != '#'; }
    } else if prefix == HASH {
      assert !(HEX_PREFIX <= s) by { assert s[0] != '0'; }
      assert s[1..] == digits;
    } else {
      assert s[2..] == digits;
    }
  }

  /**
   * A colour written as six hexadecimal digits of either case, bare or after
   * `#` or `0x`, parses back to itself.
   */
  lemma ParseColorHexRoundTrip(r: u8, g: u8, b: u8, upper: bool, prefix: Text)
    requires prefix == [] || prefix == HASH || prefix == HEX_PREFIX
    ensures ParseColor(prefix + HexPair(r, upper) + HexPair(g, upper) + HexPair(b, upper)) == Ok(TrueColor(r, g, b))
  {
    var pr, pg, pb := HexPair(r, upper), HexPair(g, upper), HexPair(b, upper);
    var digits := pr + pg + pb;
    DigitsOfPairs(r, g, b, upper);
    HexBodyAfterPrefix(prefix, digits);
    assert prefix + pr + pg + pb == prefix + digits;
    ParseColorOfDigits(prefix + digits, r, g, b);
  }

  /** Six digits written for a colour read back pair by pair as its three values. */
  lemma DigitsOfPairs(r: u8, g: u8, b: u8, upper: bool)
    ensures var d := HexPair(r, upper) + HexPair(g, upper) + HexPair(b, upper);
      && |d| == 6 && IsHexDigit(d[0]) && IsHexDigit(d[1])
      && 16 * HexVal(d[0]) + HexVal(d[1]) == r
      && 16 * HexVal(d[2]) + HexVal(d[3]) == g
      && 16 * HexVal(d[4]) + HexVal(d[5]) == b
  {
    var pr, pg, pb := HexPair(r, upper), HexPair(g, upper), HexPair(b, upper);
    var d := pr + pg + pb;
    assert d[0] == pr[0] && d[1] == pr[1];
    assert d[2] == pg[0] && d[3] == pg[1];
    assert d[4] == pb[0] && d[5] == pb[1];
    HexPairValue(r, upper);
    HexPairValue(g, upper);
    HexPairValue(b, upper);
  }

  /** Six digits after the prefix whose pairs read as `r`, `g`, `b` parse to that colour. */
  lemma ParseColorOfDigits(color: Text, r: u8, g: u8, b: u8)
    requires |HexBody(color)| == 6
    requires 16 * HexVal(HexBody(color)[0]) + HexVal(HexBody(color)[1]) == r
    requires 16 * HexVal(HexBody(color)[2]) + HexVal(HexBody(color)[3]) == g
    requires 16 * HexVal(HexBody(color)[4]) + HexVal(HexBody(color)[5]) == b
    ensures ParseColor(color) == Ok(TrueColor(r, g, b))
  {
    var p := ParseColor(color);
    assert p.Ok?;
  }

  /** Accepted inputs from the crate's own tests: white with a `0x` prefix ... */
  lemma ParseColorAcceptsHexPrefix()
    ensures ParseColor("0xffffff") == Ok(TrueColor(255, 255, 255))
  {
    var ff := HexPair(255, false);
    assert ff == ['f', 'f'];
    ParseColorHexRoundTrip(255, 255, 255, false, HEX_PREFIX);
    assert HEX_PREFIX + ff + ff + ff == "0xffffff";
  }

  /** ... white with a `#` prefix ... */
  lemma ParseColorAcceptsHash()
    ensures ParseColor("#ffffff") == Ok(TrueColor(255, 255, 255))
  {
    var ff := HexPair(255, false);
    assert ff == ['f', 'f'];
    ParseColorHexRoundTrip(255, 255, 255, false, HASH);
    assert HASH + ff + ff + ff == "#ffffff";
  }

  /** ... and bare digits, `0ff00f` being (15, 240, 15). */
  lemma ParseColorAcceptsBare()
    ensures ParseColor("0ff00f") == Ok(TrueColor(15, 240, 15))
  {
    var f0, zf := HexPair(240, false), HexPair(15, false);
    assert f0 == ['f', '0'] && zf == ['0', 'f'];
    ParseColorHexRoundTrip(15, 240, 15, false, []);
    assert [] + zf + f0 + zf == "0ff00f";
  }

  /** The rejected inputs the crate's own tests list: five or seven digits. */
  lemma ParseColorRejects()
    ensures ParseColor("0ff00").Err? && ParseColor("0x12345").Err? && ParseColor("#53241").Err?
    ensures ParseColor("1234567").Err? && ParseColor("#1234567").Err? && ParseColor("0x1234567").Err?
  {
    var bare5: Text, bare7: Text := "0ff00", "1234567";
    assert bare5[1] != 'x' && bare7[0] != '0' && bare5[0] != '#' && bare7[0] != '#';
    assert HexBody(bare5) == bare5 && HexBody(bare7) == bare7;
    var hex5: Text, hex7: Text := "0x12345", "0x1234567";
    assert HexBody(hex5) == hex5[2..] && HexBody(hex7) == hex7[2..];
    var hash5: Text, hash7: Text := "#53241", "#1234567";
    assert hash5[0] != '0' && hash7[0] != '0';
    assert HexBody(hash5) == hash5[1..] && HexBody(hash7) == hash7[1..];
  }
}
