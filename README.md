# Hex colour converter: the conversion core in Dafny

The web page `script.js` takes a typed hex colour code, such as `#FF5733`, `ff5733` or `F53`.
It checks the code and writes it in a canonical form `#RRGGBB`.
It then shows the colour as RGB and HSL and picks black or white text for the preview.
This project models that conversion core as pure Dafny functions and proves its properties:

- `hex.dfy`, module `HexCode`.
  - The input gate `isValidHex`.
  - The first-occurrence `replace("#", "")` it relies on.
  - The normaliser `normalizeHex`.
- `rgb.dfy`, module `RgbCode`.
  - The fixed-position decoder `hexToRgb`.
  - An encoder `RgbToHex`. It is not in the source. It is the reference the decoder is proved against, in both directions.
- `hsl.dfy`, module `HslColor`.
  - `rgbToHsl` in exact real arithmetic.
  - The `switch (max)` branch order.
  - `Math.round` as `Floor(x + 1/2)`.
- `contrast.dfy`, module `TextContrast`. The black/white choice of `getTextColor`.
- `process.dfy`, module `ColorInput`.
  - The decision inside `processColorInput`: trim, the empty-input error, then the format error.
  - The values `displayColor` computes for the page, with the page itself left out.

Every source function is a function here, because each one in the source is a single expression or a straight run of local assignments. `rgbToHsl` reassigns its locals `r`, `g`, `b`, `h` in sequence. It has no loop and no state that outlives the call. So the model computes it with `var` bindings in one function, `ExactHsl`, and rounds in `RgbToHsl`.

Three consequences of the code as written, each proved:

- `replace("#", "")` removes the first `#` wherever it stands, not only a leading one. So `"F#FF"` passes the gate and `"##FFF"` fails it (`IsValidHexAcceptsInnerHash`, `IsValidHexRejects`).
- Rounding can give hue 360, so the hue range is [0, 360] with both ends included. (255, 0, 1) is an example (`HueReaches360`).
- `#667EEA` gives HSL (229, 76, 66) (`RgbToHslExample`).

## Model

| member | source | states |
|---|---|---|
| HexCode.IndexOf | script.js:16 | The position `replace` acts on is -1 exactly when there is no such character; otherwise it holds that character and no earlier position does. |
| HexCode.RemoveFirstHash | script.js:16 | Without a `#` the string is unchanged; with one, exactly one character is removed. |
| HexCode.RemoveFirstHashSplit | script.js:16 | The character removed is the first `#`, the rest keeps its order, and the multiset of characters loses exactly one `#`. |
| HexCode.RemoveFirstHashAt | script.js:16 | After a `#`-free prefix `a`, `a + "#" + b` becomes `a + b`, whatever `b` holds (more `#`s included). |
| HexCode.IsValidHex | script.js:14-20 | No contract of its own: the gate is the first-`#` removal followed by the 3-or-6 hex-digit match; its meaning is stated by IsValidHexCharacterization and the examples below. |
| HexCode.IsValidHexCharacterization | script.js:14-20 | The gate accepts exactly the strings with at most one `#` whose other characters are hex digits of either case, three or six of them. Both directions are proved. |
| HexCode.IsValidHexAcceptsBare | script.js:19 | `FFF` and `FF5733` pass. |
| HexCode.IsValidHexAcceptsLeadingHash | script.js:16-19 | `#FF5733` passes. |
| HexCode.IsValidHexAcceptsInnerHash | script.js:16-19 | `F#FF` passes, because the `#` need not be in front. |
| HexCode.IsValidHexRejects | script.js:16-19 | The empty string, `GG5733` and `##FFF` fail. |
| HexCode.UpperChar | script.js:34 | A hex digit of either case becomes an upper-case hex digit; a lower-case ASCII letter becomes its capital; every other character is kept. |
| HexCode.ToUpper | script.js:34 | The result has the input's length, and a string of hex digits becomes one of upper-case hex digits. |
| HexCode.Doubled | script.js:28-31 | The result is twice as long, and character k is input character k/2, so each character appears twice in place. |
| HexCode.NormalizeHex | script.js:22-35 | For valid input the result is `#` followed by exactly six upper-case hex digits. |
| HexCode.NormalizeHexDigits | script.js:24-34 | A three-digit body `abc` becomes `#AABBCC`; a six-digit body is copied; both in upper case. |
| HexCode.NormalizeHexPairsEqual | script.js:27-32 | For a three-digit code, positions (1,2), (3,4), (5,6) of the result are equal. |
| HexCode.NormalHexIsFixedPoint | script.js:16-34 | A canonical code passes the gate with or without its `#`, and normalises to itself either way. |
| HexCode.NormalizeHexIdempotent | script.js:16-34 | For valid input the output passes the gate; normalising it again, with or without its `#`, changes nothing. |
| HexCode.NormalizeHexLeadingHash | script.js:24 | A leading `#` on a `#`-free body does not change the normal form. |
| HexCode.NormalizeHexWidensShortCode | script.js:27-34 | `a1f` normalises to `#AA11FF`. |
| HexCode.NormalizeHexUppercases | script.js:34 | `667eea` normalises to `#667EEA`. |
| HexCode.NormalizeHexKeepsOneHash | script.js:24-34 | `#667eea` normalises to `#667EEA`. |
| RgbCode.DigitValue | script.js:38-40 | A hex digit of either case has a value in [0, 16). |
| RgbCode.PairValue | script.js:38-40 | A two-digit slice read in base 16 is a byte. |
| RgbCode.HexToRgb | script.js:37-42 | Each of the three channels is in [0, 255]. |
| RgbCode.RgbToHex | script.js:37-42 | The reference inverse of the decoder, not itself in the source: it writes a canonical code, `#` and six upper-case digits. |
| RgbCode.NormalHexRoundTrip | script.js:37-42 | Decoding a canonical code and encoding the channels back gives the same code. |
| RgbCode.RgbRoundTrip | script.js:37-42 | Encoding a byte triple and decoding it gives the same triple. |
| RgbCode.HexToRgbIgnoresCase | script.js:38-40 | Decoding gives the same channels whatever the case of the letters. |
| RgbCode.ShortCodeChannels | script.js:27-40 | A valid three-digit code decodes, after normalisation, to 17 times each digit's value. |
| RgbCode.LongCodeChannels | script.js:24-40 | A valid six-digit code decodes, after normalisation, to 16·d(2i) + d(2i+1) per channel, in either case. |
| RgbCode.HexToRgbExample | script.js:37-42 | `#667EEA` decodes to (102, 126, 234). |
| HslColor.Max3 | script.js:49 | `Math.max` of three values is one of them and at least each. |
| HslColor.Min3 | script.js:50 | `Math.min` of three values is one of them and at most each. |
| HslColor.Round | script.js:76-78 | `Math.round` gives the integer within one half below or strictly under one half above, so a tie goes up. |
| HslColor.SwitchOnMax | script.js:61-71 | The branch taken is a channel that holds the maximum; green is taken only when red is below the maximum, and blue only when red and green both are. |
| HslColor.SectorHue | script.js:62-70 | No contract of its own: the three `case` formulas; their range is in SectorHueRange and their agreement on ties in TieBreakImmaterial. |
| HslColor.ExactHsl | script.js:44-73 | No contract of its own: the body of `rgbToHsl` before rounding; its ranges are in ExactHslRanges and the grey case in Achromatic. |
| HslColor.RgbToHsl | script.js:44-80 | No contract of its own: `ExactHsl` scaled to degrees and percent and rounded; its ranges are in RgbToHslRanges, its grey case in Achromatic, its values in Primaries, RgbToHslExample and HueReaches360. |
| HslColor.SectorHueRange | script.js:61-72 | For a non-grey colour, the channel the switch picks holds the maximum, and its hue lies in [0, 6) sixths of a turn. |
| HslColor.ExactHslRanges | script.js:44-73 | Before rounding, hue is in [0, 1) turns and saturation and lightness are in [0, 1]. |
| HslColor.RgbToHslRanges | script.js:44-79 | For byte channels the result has saturation and lightness in [0, 100] and hue in [0, 360]. |
| HslColor.Achromatic | script.js:55-56 | Saturation is exactly 0 iff r = g = b; then hue and saturation are 0 and lightness is round(r/255·100). |
| HslColor.SwitchPrecedence | script.js:61-71 | Red is taken iff r is a maximum, ties included; green iff r is not a maximum and g ≥ b; blue otherwise. |
| HslColor.TieBreakImmaterial | script.js:61-71 | Any channel that holds the maximum gives the same hue as the one the switch picks, so the branch order never changes the result. |
| HslColor.BlackAndWhite | script.js:55-56 | (0,0,0) maps to (0,0,0) and (255,255,255) maps to (0,0,100). |
| HslColor.Primaries | script.js:61-79 | Pure red, green and blue map to hues 0, 120 and 240, with saturation 100 and lightness 50. |
| HslColor.RgbToHslExample | script.js:44-79 | (102,126,234) maps to (229,76,66). |
| HslColor.HueReaches360 | script.js:63-76 | (255,0,1) has hue 360, so the upper bound of the hue range is inclusive. |
| TextContrast.Brightness | script.js:84 | The brightness exceeds 128 exactly when the integer sum 299r + 587g + 114b exceeds 128000. |
| TextContrast.TextColorFor | script.js:84-85 | The result is black or white; it is black iff 299r + 587g + 114b > 128000, the exact integer form of the brightness test. |
| TextContrast.GetTextColor | script.js:82-86 | For a decodable code the result is black or white, black iff the weighted sum of its channels exceeds 128000. |
| TextContrast.TextColorMonotone | script.js:84-85 | Raising any channel never turns black text into white. |
| TextContrast.GreyThreshold | script.js:84-85 | Grey 128 gets white text and grey 129 black text. |
| TextContrast.GetTextColorExamples | script.js:82-86 | `#FFFFFF` gets black text and `#000000` white text. |
| ColorInput.IsWhitespace | script.js:126 | No contract of its own: the characters `trim` removes, the ECMAScript WhiteSpace and LineTerminator code points; its use is stated by Trim and TrimEmpty. |
| ColorInput.TrimStart | script.js:126 | The result is a suffix of the input that does not start with white space, and all that was dropped is white space. |
| ColorInput.TrimEnd | script.js:126 | The result is a prefix of the input that does not end with white space, and all that was dropped is white space. |
| ColorInput.Trim | script.js:126 | The result is the slice between the leading and the trailing white space, and neither of its ends is white space. |
| ColorInput.TrimEmpty | script.js:126-128 | Trimming leaves nothing iff the input is all white space. |
| ColorInput.TrimIgnoresLeadingPad | script.js:126 | A white-space character in front does not change the trimmed text. |
| ColorInput.TrimIgnoresTrailingPad | script.js:126 | A white-space character behind does not change the trimmed text. |
| ColorInput.DisplayColor | script.js:98-102 | The page shows the normalised code, its decoded bytes (which encode back to the code), `rgbToHsl` of those bytes, in range, and the text colour `getTextColor` picks for the code. |
| ColorInput.ProcessColorInput | script.js:125-140 | The empty-input message comes iff the input is all white space. The format message comes iff the trimmed input is non-empty and fails the gate. Otherwise exactly what `displayColor` computes for the trimmed input is shown, and it is consistent. |
| ColorInput.ProcessIgnoresPadding | script.js:126-138 | White space typed before or after the code changes nothing. |
| ColorInput.ProcessEmptyInput | script.js:126-131 | Empty and all-white-space input give the "Please enter a hex color code" message. |
| ColorInput.ProcessMalformedInput | script.js:133-136 | `GG5733` gives the invalid-format message. |

## Left out

- The page objects, element updates, class toggling and `scrollIntoView` (script.js:1-11, 104-122) are presentation side effects. `View` records the values they would display. The `rgb(…)`/`hsl(…)` display strings are not built.
- The event listeners (script.js:143-173, 244-246) are UI wiring. This includes the Enter key, the input hook that adds a `#`, preset clicks and the initial `#667eea`.
- The timers in `showError` and `showTooltip` (script.js:88-96, 216-241) are asynchronous UI. An error is modelled as the message it shows.
- The clipboard copy and its `execCommand` fallback (script.js:176-214) are foreign browser calls.
- IEEE-754 arithmetic in `rgbToHsl` is replaced by exact reals. Float rounding could move a value that lies exactly on a .5 boundary in the reals.
- HexCode.UpperChar: `toUpperCase` is modelled on ASCII letters only. Other characters pass through unchanged, so non-ASCII case mappings of normalizeHex on invalid input are not captured. On valid input they cannot occur.
- HexCode.NormalizeHex: strings are sequences of Unicode characters, not UTF-16 code units, so `hex.length === 3` is counted in characters. The two agree on every string that passes the gate.
- RgbCode.HexToRgb: requires hex digits at positions 1 to 6. The source's `parseInt` leniency on other text, such as reading a prefix or returning `NaN`, is outside what its callers pass.
- HslColor.RgbToHsl: requires byte channels. The source accepts any numbers, but every caller passes the output of `hexToRgb`.
- ColorInput.DisplayColor: requires input that passes the gate. The preset click handler (script.js:166-172) calls `displayColor` on the page's own `data-color` values without that check. The page markup that holds those values is not part of this model.
