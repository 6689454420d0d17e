/** hexToRgb: the fixed-position decoder of a "#RRGGBB" code into three
    byte channels, and the encoder that writes a colour back in the form
    the normaliser produces. */
module RgbCode {
  import opened HexCode

  datatype Rgb = Rgb(r: int, g: int, b: int)

  predicate IsByte(x: int) {
    0 <= x <= 255
  }

  predicate ValidRgb(c: Rgb) {
    IsByte(c.r) && IsByte(c.g) && IsByte(c.b)
  }

  /** `parseInt(c, 16)` of one digit of either case. */
  function DigitValue(c: char): (v: int)
    requires IsHexDigit(c)
    ensures 0 <= v < 16
  {
    if '0' <= c <= '9' then c as int - '0' as int
    else if 'A' <= c <= 'F' then c as int - 'A' as int + 10
    else c as int - 'a' as int + 10
  }

  /** The upper-case digit of a value below 16. */
  function UpperDigit(v: int): (c: char)
    requires 0 <= v < 16
    ensures IsUpperHexDigit(c) && DigitValue(c) == v
  {
    if v < 10 then ('0' as int + v) as char else ('A' as int + v - 10) as char
  }

  /** `parseInt(hi + lo, 16)` of a two-digit slice. */
  function PairValue(hi: char, lo: char): (v: int)
    requires IsHexDigit(hi) && IsHexDigit(lo)
    ensures IsByte(v)
  {
    16 * DigitValue(hi) + DigitValue(lo)
  }

  /** The decoder reads only positions 1 to 6; the character at position 0
      is skipped whatever it is. */
  predicate Decodable(hex: string) {
    |hex| >= 7 && forall i :: 1 <= i < 7 ==> IsHexDigit(hex[i])
  }

  /** hexToRgb: slices (1,3), (3,5), (5,7) read as base-16 numbers. */
  function HexToRgb(hex: string): (c: Rgb)
    requires Decodable(hex)
    ensures ValidRgb(c)
  {
    Rgb(PairValue(hex[1], hex[2]), PairValue(hex[3], hex[4]), PairValue(hex[5], hex[6]))
  }

  /** Two upper-case digits for a byte, high digit first. */
  function ByteToHex(v: int): (s: string)
    requires IsByte(v)
    ensures |s| == 2 && IsUpperHexDigit(s[0]) && IsUpperHexDigit(s[1])
    ensures PairValue(s[0], s[1]) == v
  {
    [UpperDigit(v / 16), UpperDigit(v % 16)]
  }

  /** A colour written as the normaliser would: '#' and six upper-case digits. */
  function RgbToHex(c: Rgb): (h: string)
    requires ValidRgb(c)
    ensures IsNormalHex(h)
  {
    "#" + ByteToHex(c.r) + ByteToHex(c.g) + ByteToHex(c.b)
  }

  /** An upper-case digit is the digit of its own value. */
  lemma UpperDigitOfValue(c: char)
    requires IsUpperHexDigit(c)
    ensures UpperDigit(DigitValue(c)) == c
  {
  }

  /** Two upper-case digits are written back from the byte they decode to. */
  lemma ByteToHexOfPair(hi: char, lo: char)
    requires IsUpperHexDigit(hi) && IsUpperHexDigit(lo)
    ensures ByteToHex(PairValue(hi, lo)) == [hi, lo]
  {
    var v := PairValue(hi, lo);
    assert v / 16 == DigitValue(hi) && v % 16 == DigitValue(lo);
    UpperDigitOfValue(hi);
    UpperDigitOfValue(lo);
  }

  /** Decoding a normalised code and writing it back gives the same code. */
  lemma NormalHexRoundTrip(h: string)
    requires IsNormalHex(h)
    ensures RgbToHex(HexToRgb(h)) == h
  {
    ByteToHexOfPair(h[1], h[2]);
    ByteToHexOfPair(h[3], h[4]);
    ByteToHexOfPair(h[5], h[6]);
    assert h == "#" + [h[1], h[2]] + [h[3], h[4]] + [h[5], h[6]];
  }

  /** Writing a colour and decoding it gives the same colour. */
  lemma RgbRoundTrip(c: Rgb)
    requires ValidRgb(c)
    ensures HexToRgb(RgbToHex(c)) == c
  {
  }

  /** Decoding is insensitive to the case of the letters. */
  lemma HexToRgbIgnoresCase(hex: string)
    requires Decodable(hex)
    ensures Decodable(ToUpper(hex)) && HexToRgb(ToUpper(hex)) == HexToRgb(hex)
  {
  }

  /** Upper-casing a digit keeps its value. */
  lemma UpperCharKeepsValue(c: char)
    requires IsHexDigit(c)
    ensures IsHexDigit(UpperChar(c)) && DigitValue(UpperChar(c)) == DigitValue(c)
  {
  }

  /** A doubled three-digit body decodes to 17 times each digit. */
  lemma DoubledDigitsDecode(body: string, r: string)
    requires |body| == 3 && AllHexDigits(body)
    requires r == ['#', UpperChar(body[0]), UpperChar(body[0]),
                        UpperChar(body[1]), UpperChar(body[1]),
                        UpperChar(body[2]), UpperChar(body[2])]
    ensures Decodable(r)
    ensures HexToRgb(r) == Rgb(17 * DigitValue(body[0]), 17 * DigitValue(body[1]), 17 * DigitValue(body[2]))
  {
    UpperCharKeepsValue(body[0]);
    UpperCharKeepsValue(body[1]);
    UpperCharKeepsValue(body[2]);
  }

  /** A three-digit code stands for each digit repeated: every channel is
      17 times its digit. */
  lemma ShortCodeChannels(s: string)
    requires IsValidHex(s) && |RemoveFirstHash(s)| == 3
    ensures Decodable(NormalizeHex(s))
    ensures var body := RemoveFirstHash(s);
      HexToRgb(NormalizeHex(s)) ==
        Rgb(17 * DigitValue(body[0]), 17 * DigitValue(body[1]), 17 * DigitValue(body[2]))
  {
    NormalizeHexDigits(s);
    DoubledDigitsDecode(RemoveFirstHash(s), NormalizeHex(s));
  }

  /** A six-digit code is read pair by pair, in either case. */
  lemma LongCodeChannels(s: string)
    requires IsValidHex(s) && |RemoveFirstHash(s)| == 6
    ensures Decodable(NormalizeHex(s))
    ensures var body := RemoveFirstHash(s);
      HexToRgb(NormalizeHex(s)) ==
        Rgb(PairValue(body[0], body[1]), PairValue(body[2], body[3]), PairValue(body[4], body[5]))
  {
    var body := RemoveFirstHash(s);
    NormalizeHexDigits(s);
    forall i | 0 <= i < 6
      ensures IsHexDigit(UpperChar(body[i])) && DigitValue(UpperChar(body[i])) == DigitValue(body[i])
    {
      UpperCharKeepsValue(body[i]);
    }
  }

  lemma HexToRgbExample()
    ensures HexToRgb("#667EEA") == Rgb(102, 126, 234)
  {
  }
}
