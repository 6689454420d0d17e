/** processColorInput and displayColor without the page: trim the typed
    text, report an empty or malformed code, or compute everything the page
    shows for a valid one. */
module ColorInput {
  import opened HexCode
  import opened RgbCode
  import opened HslColor
  import opened TextContrast

  /** The characters `String.prototype.trim` removes: white space and line
      terminators. */
  predicate IsWhitespace(c: char) {
    ('\U{0009}' <= c <= '\U{000D}') || c == ' ' || c == '\U{00A0}' || c == '\U{1680}' ||
    ('\U{2000}' <= c <= '\U{200A}') || c == '\U{2028}' || c == '\U{2029}' ||
    c == '\U{202F}' || c == '\U{205F}' || c == '\U{3000}' || c == '\U{FEFF}'
  }

  /** Leading white space removed: what is left is a suffix of s that does
      not start with white space, and everything dropped was white space. */
  function TrimStart(s: string): (r: string)
    ensures |r| <= |s| && r == s[|s| - |r|..]
    ensures forall i :: 0 <= i < |s| - |r| ==> IsWhitespace(s[i])
    ensures r != [] ==> !IsWhitespace(r[0])
  {
    if s != [] && IsWhitespace(s[0]) then TrimStart(s[1..]) else s
  }

  /** Trailing white space removed, symmetrically. */
  function TrimEnd(s: string): (r: string)
    ensures |r| <= |s| && r == s[..|r|]
    ensures forall i :: |r| <= i < |s| ==> IsWhitespace(s[i])
    ensures r != [] ==> !IsWhitespace(r[|r| - 1])
  {
    if s != [] && IsWhitespace(s[|s| - 1]) then TrimEnd(s[..|s| - 1]) else s
  }

  /** The number of leading white-space characters of s. */
  function LeadingSpace(s: string): nat {
    |s| - |TrimStart(s)|
  }

  /** `s.trim()`: the part of s between its leading and its trailing white
      space, starting and ending with a character that is not white space. */
  function Trim(s: string): (r: string)
    ensures LeadingSpace(s) + |r| <= |s| && r == s[LeadingSpace(s)..LeadingSpace(s) + |r|]
    ensures forall k :: 0 <= k < LeadingSpace(s) ==> IsWhitespace(s[k])
    ensures forall k :: LeadingSpace(s) + |r| <= k < |s| ==> IsWhitespace(s[k])
    ensures r != [] ==> !IsWhitespace(r[0]) && !IsWhitespace(r[|r| - 1])
  {
    var t := TrimStart(s);
    var r := TrimEnd(t);
    assert forall k :: LeadingSpace(s) + |r| <= k < |s| ==> s[k] == t[k - LeadingSpace(s)];
    r
  }

  /** Trimming leaves nothing exactly when the text is all white space. */
  lemma TrimEmpty(s: string)
    ensures Trim(s) == [] <==> forall k :: 0 <= k < |s| ==> IsWhitespace(s[k])
  {
  }

  /** Appending white space goes past TrimStart untouched unless everything
      was white space. */
  lemma {:induction false} TrimStartAppend(s: string, c: char)
    requires IsWhitespace(c)
    ensures TrimStart(s + [c]) == if TrimStart(s) == [] then [] else TrimStart(s) + [c]
  {
    if s == [] {
      assert [c][1..] == [];
    } else if IsWhitespace(s[0]) {
      var sc := s + [c];
      assert sc[1..] == s[1..] + [c];
      TrimStartAppend(s[1..], c);
    }
  }

  /** White space added in front does not change the trimmed text. */
  lemma TrimIgnoresLeadingPad(s: string, c: char)
    requires IsWhitespace(c)
    ensures Trim([c] + s) == Trim(s)
  {
    assert ([c] + s)[1..] == s;
    assert TrimStart([c] + s) == TrimStart(s);
  }

  /** White space added behind does not change the trimmed text. */
  lemma TrimIgnoresTrailingPad(s: string, c: char)
    requires IsWhitespace(c)
    ensures Trim(s + [c]) == Trim(s)
  {
    TrimStartAppend(s, c);
    var t := TrimStart(s);
    if t != [] {
      assert (t + [c])[..|t + [c]| - 1] == t;
      assert TrimEnd(t + [c]) == TrimEnd(t);
    }
  }

  const EmptyMessage: string := "Please enter a hex color code"
  const FormatMessage: string := "Invalid hex color format. Use format like #FF5733 or FF5733"

  /** What the page shows for a colour: the normalised code, the RGB and
      HSL values, and the text colour of the preview. */
  datatype View = View(hex: string, rgb: Rgb, hsl: Hsl, textColor: string)

  /** The result of processing the typed text: an error message, or a
      colour shown with the error message cleared. */
  datatype Outcome = Error(message: string) | Shown(view: View)

  /** A view that is internally consistent: the RGB triple is the code's
      colour, the HSL values are in range, and the text is black or white. */
  predicate ConsistentView(v: View) {
    IsNormalHex(v.hex) && ValidRgb(v.rgb) && RgbToHex(v.rgb) == v.hex &&
    0 <= v.hsl.h <= 360 && 0 <= v.hsl.s <= 100 && 0 <= v.hsl.l <= 100 &&
    (v.textColor == Black || v.textColor == White)
  }

  /** displayColor: the values computed for the page. */
  function DisplayColor(hex: string): (v: View)
    requires IsValidHex(hex)
    ensures ConsistentView(v)
    ensures v.hex == NormalizeHex(hex) && HexToRgb(v.hex) == v.rgb
    ensures v.hsl == RgbToHsl(v.rgb.r, v.rgb.g, v.rgb.b)
    ensures v.textColor == GetTextColor(v.hex)
  {
    var normalized := NormalizeHex(hex);
    var rgb := HexToRgb(normalized);
    NormalHexRoundTrip(normalized);
    RgbToHslRanges(rgb.r, rgb.g, rgb.b);
    View(normalized, rgb, RgbToHsl(rgb.r, rgb.g, rgb.b), GetTextColor(normalized))
  }

  /** processColorInput: the empty check comes first, then the format check. */
  function ProcessColorInput(raw: string): (o: Outcome)
    ensures o == Error(EmptyMessage) <==> forall k :: 0 <= k < |raw| ==> IsWhitespace(raw[k])
    ensures o == Error(FormatMessage) <==> Trim(raw) != [] && !IsValidHex(Trim(raw))
    ensures o.Shown? <==> IsValidHex(Trim(raw))
    ensures o.Shown? ==> ConsistentView(o.view) && o.view == DisplayColor(Trim(raw))
  {
    var input := Trim(raw);
    TrimEmpty(raw);
    if input == [] then Error(EmptyMessage)
    else if !IsValidHex(input) then Error(FormatMessage)
    else Shown(DisplayColor(input))
  }

  /** White space typed around a code changes nothing. */
  lemma ProcessIgnoresPadding(s: string, c: char)
    requires IsWhitespace(c)
    ensures ProcessColorInput([c] + s) == ProcessColorInput(s)
    ensures ProcessColorInput(s + [c]) == ProcessColorInput(s)
  {
    TrimIgnoresLeadingPad(s, c);
    TrimIgnoresTrailingPad(s, c);
  }

  lemma ProcessEmptyInput()
    ensures ProcessColorInput("") == Error(EmptyMessage)
    ensures ProcessColorInput(" \t ") == Error(EmptyMessage)
  {
  }

  lemma ProcessMalformedInput()
    ensures ProcessColorInput("GG5733") == Error(FormatMessage)
  {
    var s := "GG5733";
    assert TrimStart(s) == s && TrimEnd(s) == s;
    assert !IsValidHex(s);
  }
}
