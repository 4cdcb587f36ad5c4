/**
 * The colour key both rankers count by: an RGB pixel rendered with the
 * format '#%02x%02x%02x', i.e. '#' and two lower-case hexadecimal digits per
 * channel (the inline format of rank_top_colors and the helper rbg_to_hex).
 */
module ColorKey {
  import opened Wrappers

  /** One 8-bit colour channel, as the image decoder hands it out. */
  type Byte = x: int | 0 <= x < 256

  /** The first three channels of a decoded pixel (any alpha channel is ignored). */
  datatype Pixel = Pixel(r: Byte, g: Byte, b: Byte)

  predicate IsLowerHex(c: char) {
    '0' <= c <= '9' || 'a' <= c <= 'f'
  }

  /** A well-formed colour key: '#' followed by exactly six lower-case hex digits. */
  predicate IsKey(s: string) {
    |s| == 7 && s[0] == '#' && forall i :: 1 <= i < 7 ==> IsLowerHex(s[i])
  }

  /** Value of a lower-case hex digit. */
  function DigitValue(c: char): (d: int)
    requires IsLowerHex(c)
    ensures 0 <= d < 16
  {
    if c <= '9' then c as int - '0' as int else c as int - 'a' as int + 10
  }

  /** The lower-case hex digit of a value below 16. */
  function HexDigit(d: int): (c: char)
    requires 0 <= d < 16
    ensures IsLowerHex(c) && DigitValue(c) == d
  {
    if d < 10 then ('0' as int + d) as char else ('a' as int + d - 10) as char
  }

  /** '%02x' of one channel: two digits, high nibble first. */
  function Hex2(x: Byte): (s: string)
    ensures |s| == 2 && IsLowerHex(s[0]) && IsLowerHex(s[1])
    ensures 16 * DigitValue(s[0]) + DigitValue(s[1]) == x
  {
    [HexDigit(x / 16), HexDigit(x % 16)]
  }

  /** rbg_to_hex(r, g, b) = '#%02x%02x%02x' % (r, g, b). */
  function RgbToHex(r: Byte, g: Byte, b: Byte): (k: string)
    ensures IsKey(k)
  {
    "#" + Hex2(r) + Hex2(g) + Hex2(b)
  }

  /** The key of a pixel, computed from its first three channels. */
  function KeyOf(p: Pixel): string {
    RgbToHex(p.r, p.g, p.b)
  }

  /** Reads back the channel encoded by two hex digits. */
  function Byte2(hi: char, lo: char): (x: Byte)
    requires IsLowerHex(hi) && IsLowerHex(lo)
  {
    16 * DigitValue(hi) + DigitValue(lo)
  }

  /** Inverse of KeyOf: the pixel a well-formed key denotes, None for anything else. */
  function ParseKey(s: string): (r: Option<Pixel>)
    ensures r.Some? <==> IsKey(s)
  {
    if IsKey(s) then Some(Pixel(Byte2(s[1], s[2]), Byte2(s[3], s[4]), Byte2(s[5], s[6])))
    else None
  }

  /** Decoding a pixel's key gives the pixel back. */
  lemma ParseKeyRoundTrip(p: Pixel)
    ensures ParseKey(KeyOf(p)) == Some(p)
  {
    var k := KeyOf(p);
    assert k[1..3] == Hex2(p.r) && k[3..5] == Hex2(p.g) && k[5..7] == Hex2(p.b);
  }

  /** Two hex digits read back and re-rendered give the same two digits. */
  lemma Hex2Byte2(hi: char, lo: char)
    requires IsLowerHex(hi) && IsLowerHex(lo)
    ensures Hex2(Byte2(hi, lo)) == [hi, lo]
  {
    var x := Byte2(hi, lo);
    assert x / 16 == DigitValue(hi) && x % 16 == DigitValue(lo);
  }

  /** Every well-formed key is the key of the pixel it decodes to, so keys are canonical. */
  lemma KeyOfParseKey(s: string)
    requires IsKey(s)
    ensures KeyOf(ParseKey(s).value) == s
  {
    assert IsLowerHex(s[1]) && IsLowerHex(s[2]) && IsLowerHex(s[3]);
    assert IsLowerHex(s[4]) && IsLowerHex(s[5]) && IsLowerHex(s[6]);
    Hex2Byte2(s[1], s[2]);
    Hex2Byte2(s[3], s[4]);
    Hex2Byte2(s[5], s[6]);
    assert s == [s[0]] + [s[1], s[2]] + [s[3], s[4]] + [s[5], s[6]];
  }

  /** Two pixels share a key exactly when their three channels agree. */
  lemma KeyOfInjective(p: Pixel, q: Pixel)
    ensures KeyOf(p) == KeyOf(q) <==> p == q
  {
    if KeyOf(p) == KeyOf(q) {
      ParseKeyRoundTrip(p);
      ParseKeyRoundTrip(q);
    }
  }
}
