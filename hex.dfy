/** The `#rrggbb` notation the tool shows for a colour: `f"#{r:02x}{g:02x}{b:02x}"`,
    lower-case, and its upper-cased display form. The parser is the inverse
    the notation is designed for; the tool itself never parses. */
module Hex {
  import opened Wrappers
  import opened Colors
  import opened Text

  predicate IsLowerHexDigit(ch: char) { '0' <= ch <= '9' || 'a' <= ch <= 'f' }

  predicate IsUpperHexDigit(ch: char) { '0' <= ch <= '9' || 'A' <= ch <= 'F' }

  /** The value of one hexadecimal digit in either case; None for any other character. */
  function DigitValue(ch: char): (v: Option<nat>)
    ensures v.Some? <==> IsLowerHexDigit(ch) || IsUpperHexDigit(ch)
    ensures v.Some? ==> v.value < 16
  {
    if '0' <= ch <= '9' then Some(ch as int - '0' as int)
    else if 'a' <= ch <= 'f' then Some(ch as int - 'a' as int + 10)
    else if 'A' <= ch <= 'F' then Some(ch as int - 'A' as int + 10)
    else None
  }

  /** The lower-case digit for a value below 16, as `format(d, "x")` writes it. */
  function HexDigit(d: nat): (ch: char)
    requires d < 16
    ensures IsLowerHexDigit(ch) && DigitValue(ch) == Some(d)
    ensures DigitValue(UpperChar(ch)) == Some(d)
  {
    if d < 10 then ('0' as int + d) as char else ('a' as int + d - 10) as char
  }

  /** `{n:02x}` for an 8-bit value: exactly two lower-case digits, high digit first. */
  function HexByte(n: Channel): (s: string)
    ensures |s| == 2 && IsLowerHexDigit(s[0]) && IsLowerHexDigit(s[1])
    ensures DigitValue(s[0]) == Some(n / 16) && DigitValue(s[1]) == Some(n % 16)
  {
    [HexDigit(n / 16), HexDigit(n % 16)]
  }

  /** `f"#{r:02x}{g:02x}{b:02x}"`. */
  function HexColor(c: Rgb): (s: string)
    ensures |s| == 7 && s[0] == '#'
    ensures forall i :: 1 <= i < 7 ==> IsLowerHexDigit(s[i])
  {
    "#" + HexByte(c.r) + HexByte(c.g) + HexByte(c.b)
  }

  /** `hex_color.upper()`, the form shown in the HEX label. */
  function DisplayHex(c: Rgb): (s: string)
    ensures |s| == 7 && s[0] == '#'
    ensures forall i :: 1 <= i < 7 ==> IsUpperHexDigit(s[i])
  {
    Upper(HexColor(c))
  }

  /** Two hexadecimal digits read as one 8-bit value. */
  function ParseByte(hi: char, lo: char): (v: Option<Channel>)
    ensures v.Some? <==> DigitValue(hi).Some? && DigitValue(lo).Some?
  {
    match (DigitValue(hi), DigitValue(lo))
    case (Some(h), Some(l)) => Some(h * 16 + l)
    case _ => None
  }

  /** Reads `#rrggbb` with digits of either case. */
  function ParseHexColor(s: string): (c: Option<Rgb>)
    ensures c.Some? ==> |s| == 7 && s[0] == '#'
  {
    if |s| != 7 || s[0] != '#' then None
    else
      match (ParseByte(s[1], s[2]), ParseByte(s[3], s[4]), ParseByte(s[5], s[6]))
      case (Some(r), Some(g), Some(b)) => Some(Rgb(r, g, b))
      case _ => None
  }

  /** The notation decodes back to the colour, in its stored and in its
      displayed (upper-case) form. */
  lemma HexColorRoundTrip(c: Rgb)
    ensures ParseHexColor(HexColor(c)) == Some(c)
    ensures ParseHexColor(DisplayHex(c)) == Some(c)
  {
    var s, u := HexColor(c), DisplayHex(c);
    assert s[1..3] == HexByte(c.r) && s[3..5] == HexByte(c.g) && s[5..7] == HexByte(c.b);
    ByteRoundTrip(c.r);
    ByteRoundTrip(c.g);
    ByteRoundTrip(c.b);
    assert forall i :: 0 <= i < 7 ==> u[i] == UpperChar(s[i]);
  }

  /** One byte's two digits read back as that byte, in either case. */
  lemma ByteRoundTrip(n: Channel)
    ensures ParseByte(HexByte(n)[0], HexByte(n)[1]) == Some(n)
    ensures ParseByte(UpperChar(HexByte(n)[0]), UpperChar(HexByte(n)[1])) == Some(n)
  {
  }

  /** Re-encoding a parsed byte gives back its two digits, up to case. */
  lemma ParseByteInverse(hi: char, lo: char)
    requires ParseByte(hi, lo).Some?
    ensures UpperChar(HexByte(ParseByte(hi, lo).value)[0]) == UpperChar(hi)
    ensures UpperChar(HexByte(ParseByte(hi, lo).value)[1]) == UpperChar(lo)
  {
    var h, l := DigitValue(hi).value, DigitValue(lo).value;
    assert (h * 16 + l) / 16 == h && (h * 16 + l) % 16 == l;
  }

  /** Conversely, a string the parser accepts is the notation of the colour it
      reads, up to the case of its digits. */
  lemma ParseHexColorInverse(s: string)
    requires ParseHexColor(s).Some?
    ensures Upper(HexColor(ParseHexColor(s).value)) == Upper(s)
  {
    var c := ParseHexColor(s).value;
    assert ParseByte(s[1], s[2]) == Some(c.r);
    assert ParseByte(s[3], s[4]) == Some(c.g);
    assert ParseByte(s[5], s[6]) == Some(c.b);
    ParseByteInverse(s[1], s[2]);
    ParseByteInverse(s[3], s[4]);
    ParseByteInverse(s[5], s[6]);
    var t := HexColor(c);
    assert t[1..3] == HexByte(c.r) && t[3..5] == HexByte(c.g) && t[5..7] == HexByte(c.b);
    assert forall i :: 0 <= i < 7 ==> UpperChar(t[i]) == UpperChar(s[i]);
  }

  /** No two colours share a notation. */
  lemma HexColorInjective(c: Rgb, d: Rgb)
    requires HexColor(c) == HexColor(d)
    ensures c == d
  {
    HexColorRoundTrip(c);
    HexColorRoundTrip(d);
  }
}
