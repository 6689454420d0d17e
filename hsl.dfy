/** rgbToHsl: the min/max conversion from byte channels to hue (degrees)
    and saturation and lightness (percent), in exact real arithmetic. */
module HslColor {
  import opened RgbCode

  datatype Hsl = Hsl(h: int, s: int, l: int)

  /** `Math.max(a, b, c)`. */
  function Max3(a: real, b: real, c: real): (m: real)
    ensures (m == a || m == b || m == c) && a <= m && b <= m && c <= m
  {
    if a >= b && a >= c then a else if b >= c then b else c
  }

  /** `Math.min(a, b, c)`. */
  function Min3(a: real, b: real, c: real): (m: real)
    ensures (m == a || m == b || m == c) && m <= a && m <= b && m <= c
  {
    if a <= b && a <= c then a else if b <= c then b else c
  }

  /** `Math.round`: the nearest integer, a tie going up. */
  function Round(x: real): (n: int)
    ensures n as real - 0.5 <= x < n as real + 0.5
  {
    (x + 0.5).Floor
  }

  datatype Channel = Red | Green | Blue

  /** The value of channel c among the scaled channels. */
  function ChannelValue(c: Channel, r: real, g: real, b: real): real {
    match c
    case Red => r
    case Green => g
    case Blue => b
  }

  /** `switch (max) { case r: … case g: … case b: … }`: the cases are
      compared in that order, so a tie goes to the earlier channel. */
  function SwitchOnMax(r: real, g: real, b: real): (c: Channel)
    ensures ChannelValue(c, r, g, b) == Max3(r, g, b)
    ensures c != Red ==> r < Max3(r, g, b)
    ensures c == Blue ==> g < Max3(r, g, b)
  {
    var max := Max3(r, g, b);
    if max == r then Red else if max == g then Green else Blue
  }

  /** The hue, in sixths of a turn, as the branch for channel c computes it
      from the scaled channels and the spread d = max - min. */
  function SectorHue(c: Channel, r: real, g: real, b: real, d: real): real
    requires d != 0.0
  {
    match c
    case Red => (g - b) / d + (if g < b then 6.0 else 0.0)
    case Green => (b - r) / d + 2.0
    case Blue => (r - g) / d + 4.0
  }

  /** Hue in turns, saturation and lightness as fractions, before rounding. */
  datatype Fractions = Fractions(h: real, s: real, l: real)

  function Scaled(x: int): real {
    x as real / 255.0
  }

  /** The body of rgbToHsl up to its return statement. */
  function ExactHsl(r: int, g: int, b: int): Fractions
    requires ValidRgb(Rgb(r, g, b))
  {
    var r', g', b' := Scaled(r), Scaled(g), Scaled(b);
    var max := Max3(r', g', b');
    var min := Min3(r', g', b');
    var l := (max + min) / 2.0;
    if max == min then Fractions(0.0, 0.0, l)
    else
      var d := max - min;
      var s := if l > 0.5 then d / (2.0 - max - min) else d / (max + min);
      Fractions(SectorHue(SwitchOnMax(r', g', b'), r', g', b', d) / 6.0, s, l)
  }

  /** rgbToHsl: the fractions scaled to degrees and percent and rounded. */
  function RgbToHsl(r: int, g: int, b: int): Hsl
    requires ValidRgb(Rgb(r, g, b))
  {
    var f := ExactHsl(r, g, b);
    Hsl(Round(f.h * 360.0), Round(f.s * 100.0), Round(f.l * 100.0))
  }

  lemma QuotientInUnit(a: real, b: real)
    requires 0.0 <= a <= b && 0.0 < b
    ensures 0.0 <= a / b <= 1.0
  {
  }

  lemma QuotientInBand(a: real, d: real)
    requires -d <= a <= d && 0.0 < d
    ensures -1.0 <= a / d <= 1.0
    ensures a < 0.0 ==> a / d < 0.0
  {
  }

  lemma PositiveQuotient(a: real, b: real)
    requires 0.0 < a && 0.0 < b
    ensures 0.0 < a / b
  {
  }

  lemma UnitQuotients(d: real)
    requires d != 0.0
    ensures d / d == 1.0 && (-d) / d == -1.0
  {
  }

  /** The switch picks a channel that holds the maximum, and the sector hue
      of that channel lies in [0, 6). */
  lemma SectorHueRange(r: real, g: real, b: real)
    requires Max3(r, g, b) != Min3(r, g, b)
    ensures var max, c := Max3(r, g, b), SwitchOnMax(r, g, b);
      (c == Red ==> r == max) && (c == Green ==> g == max) && (c == Blue ==> b == max)
    ensures 0.0 <= SectorHue(SwitchOnMax(r, g, b), r, g, b, Max3(r, g, b) - Min3(r, g, b)) < 6.0
  {
    var d := Max3(r, g, b) - Min3(r, g, b);
    match SwitchOnMax(r, g, b)
    case Red =>
      QuotientInBand(g - b, d);
    case Green =>
      QuotientInBand(b - r, d);
    case Blue =>
      QuotientInBand(r - g, d);
  }

  /** Before rounding: hue in [0, 1) turns, saturation and lightness in [0, 1]. */
  lemma ExactHslRanges(r: int, g: int, b: int)
    requires ValidRgb(Rgb(r, g, b))
    ensures var f := ExactHsl(r, g, b);
      0.0 <= f.h < 1.0 && 0.0 <= f.s <= 1.0 && 0.0 <= f.l <= 1.0
  {
    var r', g', b' := Scaled(r), Scaled(g), Scaled(b);
    var max, min := Max3(r', g', b'), Min3(r', g', b');
    if max != min {
      var d := max - min;
      if (max + min) / 2.0 > 0.5 {
        QuotientInUnit(d, 2.0 - max - min);
      } else {
        QuotientInUnit(d, max + min);
      }
      SectorHueRange(r', g', b');
    }
  }

  /** The rounded values: saturation and lightness in [0, 100], hue in
      [0, 360]; the upper hue bound is reached, see HueReaches360. */
  lemma RgbToHslRanges(r: int, g: int, b: int)
    requires ValidRgb(Rgb(r, g, b))
    ensures var c := RgbToHsl(r, g, b);
      0 <= c.h <= 360 && 0 <= c.s <= 100 && 0 <= c.l <= 100
  {
    ExactHslRanges(r, g, b);
  }

  /** A grey has hue 0 and saturation 0, and its lightness is the channel
      as a rounded percentage; and only a grey has saturation exactly 0. */
  lemma Achromatic(r: int, g: int, b: int)
    requires ValidRgb(Rgb(r, g, b))
    ensures ExactHsl(r, g, b).s == 0.0 <==> r == g == b
    ensures r == g == b ==> RgbToHsl(r, g, b) == Hsl(0, 0, Round(Scaled(r) * 100.0))
  {
    var r', g', b' := Scaled(r), Scaled(g), Scaled(b);
    var max, min := Max3(r', g', b'), Min3(r', g', b');
    if max != min {
      var d := max - min;
      assert 0.0 < d;
      if (max + min) / 2.0 > 0.5 {
        PositiveQuotient(d, 2.0 - max - min);
      } else {
        PositiveQuotient(d, max + min);
      }
    }
  }

  /** The switch order on the byte channels: red whenever r is a maximum,
      even tied; green only when g is a maximum and r is not; blue otherwise. */
  lemma SwitchPrecedence(r: int, g: int, b: int)
    requires ValidRgb(Rgb(r, g, b))
    ensures var c := SwitchOnMax(Scaled(r), Scaled(g), Scaled(b));
      (c == Red <==> r >= g && r >= b) &&
      (c == Green <==> !(r >= g && r >= b) && g >= b) &&
      (c == Blue <==> !(r >= g && r >= b) && g < b)
  {
    assert Scaled(r) >= Scaled(g) <==> r >= g;
    assert Scaled(r) >= Scaled(b) <==> r >= b;
    assert Scaled(g) >= Scaled(b) <==> g >= b;
  }

  /** The order of the switch does not change the hue: every channel that
      holds the maximum gives the same sector hue as the one picked. */
  lemma TieBreakImmaterial(r: real, g: real, b: real, c: Channel)
    requires Max3(r, g, b) != Min3(r, g, b)
    requires ChannelValue(c, r, g, b) == Max3(r, g, b)
    ensures var d := Max3(r, g, b) - Min3(r, g, b);
      SectorHue(c, r, g, b, d) == SectorHue(SwitchOnMax(r, g, b), r, g, b, d)
  {
    var max, min := Max3(r, g, b), Min3(r, g, b);
    var d := max - min;
    UnitQuotients(d);
  }

  lemma BlackAndWhite()
    ensures RgbToHsl(0, 0, 0) == Hsl(0, 0, 0)
    ensures RgbToHsl(255, 255, 255) == Hsl(0, 0, 100)
  {
    Achromatic(0, 0, 0);
    Achromatic(255, 255, 255);
  }

  /** The primaries sit at 0, 120 and 240 degrees, fully saturated, at
      half lightness. */
  lemma Primaries()
    ensures RgbToHsl(255, 0, 0) == Hsl(0, 100, 50)
    ensures RgbToHsl(0, 255, 0) == Hsl(120, 100, 50)
    ensures RgbToHsl(0, 0, 255) == Hsl(240, 100, 50)
  {
    assert Scaled(255) == 1.0 && Scaled(0) == 0.0;
    assert ExactHsl(255, 0, 0) == Fractions(0.0, 1.0, 0.5);
    assert ExactHsl(0, 255, 0) == Fractions(2.0 / 6.0, 1.0, 0.5);
    assert ExactHsl(0, 0, 255) == Fractions(4.0 / 6.0, 1.0, 0.5);
  }

  /** #667EEA: blue is the maximum; hue 229, saturation 76, lightness 66. */
  lemma RgbToHslExample()
    ensures RgbToHsl(102, 126, 234) == Hsl(229, 76, 66)
  {
    var f := ExactHsl(102, 126, 234);
    assert SwitchOnMax(Scaled(102), Scaled(126), Scaled(234)) == Blue;
    assert f == Fractions((-24.0 / 132.0 + 4.0) / 6.0, 132.0 / 174.0, 336.0 / 510.0);
  }

  /** Rounding can carry a hue just below 360 up to 360 itself. */
  lemma HueReaches360()
    ensures RgbToHsl(255, 0, 1).h == 360
  {
    var f := ExactHsl(255, 0, 1);
    assert SwitchOnMax(Scaled(255), Scaled(0), Scaled(1)) == Red;
    assert f.h == (6.0 - 1.0 / 255.0) / 6.0;
  }
}
