/** getTextColor: black or white text for a background colour, chosen by
    the weighted brightness (299 r + 587 g + 114 b) / 1000. */
module TextContrast {
  import opened RgbCode

  const Black: string := "#000000"
  const White: string := "#FFFFFF"

  /** The weighted channel sum, an integer. */
  function WeightedSum(c: Rgb): int {
    c.r * 299 + c.g * 587 + c.b * 114
  }

  /** The brightness the source computes, as an exact quotient; it exceeds
      128 exactly when the integer sum exceeds 128000. */
  function Brightness(c: Rgb): (x: real)
    ensures x > 128.0 <==> WeightedSum(c) > 128000
  {
    (c.r * 299 + c.g * 587 + c.b * 114) as real / 1000.0
  }

  /** The choice on an already decoded colour: black on bright backgrounds,
      white otherwise; the brightness test is exactly an integer comparison
      with 128000. */
  function TextColorFor(c: Rgb): (t: string)
    ensures t == Black || t == White
    ensures t == Black <==> WeightedSum(c) > 128000
  {
    if Brightness(c) > 128.0 then Black else White
  }

  /** getTextColor: decode the code, then choose. */
  function GetTextColor(hex: string): (t: string)
    requires Decodable(hex)
    ensures t == Black || t == White
    ensures t == Black <==> WeightedSum(HexToRgb(hex)) > 128000
  {
    TextColorFor(HexToRgb(hex))
  }

  /** Raising any channel never turns black text into white text. */
  lemma TextColorMonotone(c: Rgb, c': Rgb)
    requires c.r <= c'.r && c.g <= c'.g && c.b <= c'.b
    ensures TextColorFor(c) == Black ==> TextColorFor(c') == Black
  {
  }

  /** The threshold sits between the greys 128 and 129. */
  lemma GreyThreshold()
    ensures TextColorFor(Rgb(128, 128, 128)) == White
    ensures TextColorFor(Rgb(129, 129, 129)) == Black
  {
  }

  lemma GetTextColorExamples()
    ensures GetTextColor("#FFFFFF") == Black
    ensures GetTextColor("#000000") == White
  {
  }
}
