/**
 The `CLW` styled-text value and its builder (src/lib.rs). Each setter takes
 the value and returns a new one, so the Rust `mut self` methods are pure
 functions here.
 */
module Builder {
  import opened Optional
  import opened Colors
  import opened Styles

  /** A payload with an optional foreground (`text`), an optional background and the styles added so far. */
  datatype Clw = Clw(value: string, bg: Option<Color>, text: Option<Color>, font: seq<Style>)

  /** No colour and no style is set. */
  predicate IsPlain(w: Clw) {
    w.text.None? && w.bg.None? && |w.font| == 0
  }

  /** `r` is `w` with its foreground set to `c` and nothing else changed. */
  predicate SetsText(w: Clw, r: Clw, c: Color) {
    r.text == Some(c) && r.bg == w.bg && r.font == w.font && r.value == w.value
  }

  /** `r` is `w` with its background set to `c` and nothing else changed. */
  predicate SetsBg(w: Clw, r: Clw, c: Color) {
    r.bg == Some(c) && r.text == w.text && r.font == w.font && r.value == w.value
  }

  /** `r` is `w` with `s` added after its existing styles and nothing else changed. */
  predicate AddsFont(w: Clw, r: Clw, s: Style) {
    |r.font| == |w.font| + 1 && r.font[..|w.font|] == w.font && r.font[|w.font|] == s
    && r.text == w.text && r.bg == w.bg && r.value == w.value
  }

  /** `CLW::new`: the payload with no styling. */
  function New(value: string): (w: Clw)
    ensures w.value == value && IsPlain(w)
  {
    Clw(value, None, None, [])
  }

  /** The free function `clw`, a shorthand for `CLW::new`. */
  function ClwOf(str: string): (w: Clw)
    ensures w.value == str && IsPlain(w)
  {
    New(str)
  }

  /** `CLW::text`: set (overwrite) the foreground colour. */
  function Text(w: Clw, color: Color): (r: Clw)
    ensures SetsText(w, r, color)
  {
    w.(text := Some(color))
  }

  /** `CLW::bg`: set (overwrite) the background colour. */
  function Bg(w: Clw, color: Color): (r: Clw)
    ensures SetsBg(w, r, color)
  {
    w.(bg := Some(color))
  }

  /** `CLW::font`: push one style onto the end of the style list. */
  function Font(w: Clw, style: Style): (r: Clw)
    ensures AddsFont(w, r, style)
  {
    w.(font := w.font + [style])
  }

  /** The last foreground set wins. */
  lemma TextOverwrites(w: Clw, a: Color, b: Color)
    ensures Text(Text(w, a), b) == Text(w, b)
  {
  }

  /** The last background set wins. */
  lemma BgOverwrites(w: Clw, a: Color, b: Color)
    ensures Bg(Bg(w, a), b) == Bg(w, b)
  {
  }

  /** Foreground and background are independent fields. */
  lemma TextBgCommute(w: Clw, a: Color, b: Color)
    ensures Text(Bg(w, b), a) == Bg(Text(w, a), b)
  {
  }

  /** Styles accumulate in call order, duplicates kept. */
  lemma FontAccumulates(w: Clw, a: Style, b: Style)
    ensures Font(Font(w, a), b).font == w.font + [a, b]
    ensures multiset(Font(Font(w, a), b).font) == multiset(w.font) + multiset{a, b}
  {
  }

  // The convenience setters: each one is the general setter with a fixed value.

  function TextBlack(w: Clw): (r: Clw) ensures SetsText(w, r, Black) { Text(w, Black) }
  function TextRed(w: Clw): (r: Clw) ensures SetsText(w, r, Red) { Text(w, Red) }
  function TextGreen(w: Clw): (r: Clw) ensures SetsText(w, r, Green) { Text(w, Green) }
  function TextYellow(w: Clw): (r: Clw) ensures SetsText(w, r, Yellow) { Text(w, Yellow) }
  function TextBlue(w: Clw): (r: Clw) ensures SetsText(w, r, Blue) { Text(w, Blue) }
  function TextMagenta(w: Clw): (r: Clw) ensures SetsText(w, r, Magenta) { Text(w, Magenta) }
  function TextCyan(w: Clw): (r: Clw) ensures SetsText(w, r, Cyan) { Text(w, Cyan) }
  function TextWhite(w: Clw): (r: Clw) ensures SetsText(w, r, White) { Text(w, White) }
  function TextBrightBlack(w: Clw): (r: Clw) ensures SetsText(w, r, BrightBlack) { Text(w, BrightBlack) }
  function TextBrightRed(w: Clw): (r: Clw) ensures SetsText(w, r, BrightRed) { Text(w, BrightRed) }
  function TextBrightGreen(w: Clw): (r: Clw) ensures SetsText(w, r, BrightGreen) { Text(w, BrightGreen) }
  function TextBrightYellow(w: Clw): (r: Clw) ensures SetsText(w, r, BrightYellow) { Text(w, BrightYellow) }
  function TextBrightBlue(w: Clw): (r: Clw) ensures SetsText(w, r, BrightBlue) { Text(w, BrightBlue) }
  function TextBrightMagenta(w: Clw): (r: Clw) ensures SetsText(w, r, BrightMagenta) { Text(w, BrightMagenta) }
  function TextBrightCyan(w: Clw): (r: Clw) ensures SetsText(w, r, BrightCyan) { Text(w, BrightCyan) }
  function TextBrightWhite(w: Clw): (r: Clw) ensures SetsText(w, r, BrightWhite) { Text(w, BrightWhite) }

  function BgBlack(w: Clw): (r: Clw) ensures SetsBg(w, r, Black) { Bg(w, Black) }
  function BgRed(w: Clw): (r: Clw) ensures SetsBg(w, r, Red) { Bg(w, Red) }
  function BgGreen(w: Clw): (r: Clw) ensures SetsBg(w, r, Green) { Bg(w, Green) }
  function BgYellow(w: Clw): (r: Clw) ensures SetsBg(w, r, Yellow) { Bg(w, Yellow) }
  function BgBlue(w: Clw): (r: Clw) ensures SetsBg(w, r, Blue) { Bg(w, Blue) }
  function BgMagenta(w: Clw): (r: Clw) ensures SetsBg(w, r, Magenta) { Bg(w, Magenta) }
  function BgCyan(w: Clw): (r: Clw) ensures SetsBg(w, r, Cyan) { Bg(w, Cyan) }
  function BgWhite(w: Clw): (r: Clw) ensures SetsBg(w, r, White) { Bg(w, White) }
  function BgBrightBlack(w: Clw): (r: Clw) ensures SetsBg(w, r, BrightBlack) { Bg(w, BrightBlack) }
  function BgBrightRed(w: Clw): (r: Clw) ensures SetsBg(w, r, BrightRed) { Bg(w, BrightRed) }
  function BgBrightGreen(w: Clw): (r: Clw) ensures SetsBg(w, r, BrightGreen) { Bg(w, BrightGreen) }
  function BgBrightYellow(w: Clw): (r: Clw) ensures SetsBg(w, r, BrightYellow) { Bg(w, BrightYellow) }
  function BgBrightBlue(w: Clw): (r: Clw) ensures SetsBg(w, r, BrightBlue) { Bg(w, BrightBlue) }
  function BgBrightMagenta(w: Clw): (r: Clw) ensures SetsBg(w, r, BrightMagenta) { Bg(w, BrightMagenta) }
  function BgBrightCyan(w: Clw): (r: Clw) ensures SetsBg(w, r, BrightCyan) { Bg(w, BrightCyan) }
  function BgBrightWhite(w: Clw): (r: Clw) ensures SetsBg(w, r, BrightWhite) { Bg(w, BrightWhite) }

  function FontBold(w: Clw): (r: Clw) ensures AddsFont(w, r, Bold) { Font(w, Bold) }
  function FontDim(w: Clw): (r: Clw) ensures AddsFont(w, r, Dim) { Font(w, Dim) }
  function FontItalic(w: Clw): (r: Clw) ensures AddsFont(w, r, Italic) { Font(w, Italic) }
  function FontUnderline(w: Clw): (r: Clw) ensures AddsFont(w, r, Underline) { Font(w, Underline) }
  function FontBlink(w: Clw): (r: Clw) ensures AddsFont(w, r, Blink) { Font(w, Blink) }
  function FontReverse(w: Clw): (r: Clw) ensures AddsFont(w, r, Reverse) { Font(w, Reverse) }
  function FontHidden(w: Clw): (r: Clw) ensures AddsFont(w, r, Hidden) { Font(w, Hidden) }
  function FontStrikethrough(w: Clw): (r: Clw) ensures AddsFont(w, r, Strikethrough) { Font(w, Strikethrough) }

  /** The three setter contracts pin the result down completely, so every alias equals its general setter. */
  lemma SetterContractsDetermine(w: Clw, r1: Clw, r2: Clw, c: Color, s: Style)
    ensures SetsText(w, r1, c) && SetsText(w, r2, c) ==> r1 == r2
    ensures SetsBg(w, r1, c) && SetsBg(w, r2, c) ==> r1 == r2
    ensures AddsFont(w, r1, s) && AddsFont(w, r2, s) ==> r1 == r2
  {
  }

  /** Every convenience setter is its general setter applied to the fixed colour or style. */
  lemma ConvenienceSettersAgree(w: Clw)
    ensures TextBlack(w) == Text(w, Black)
    ensures TextRed(w) == Text(w, Red)
    ensures TextGreen(w) == Text(w, Green)
    ensures TextYellow(w) == Text(w, Yellow)
    ensures TextBlue(w) == Text(w, Blue)
    ensures TextMagenta(w) == Text(w, Magenta)
    ensures TextCyan(w) == Text(w, Cyan)
    ensures TextWhite(w) == Text(w, White)
    ensures TextBrightBlack(w) == Text(w, BrightBlack)
    ensures TextBrightRed(w) == Text(w, BrightRed)
    ensures TextBrightGreen(w) == Text(w, BrightGreen)
    ensures TextBrightYellow(w) == Text(w, BrightYellow)
    ensures TextBrightBlue(w) == Text(w, BrightBlue)
    ensures TextBrightMagenta(w) == Text(w, BrightMagenta)
    ensures TextBrightCyan(w) == Text(w, BrightCyan)
    ensures TextBrightWhite(w) == Text(w, BrightWhite)
    ensures BgBlack(w) == Bg(w, Black)
    ensures BgRed(w) == Bg(w, Red)
    ensures BgGreen(w) == Bg(w, Green)
    ensures BgYellow(w) == Bg(w, Yellow)
    ensures BgBlue(w) == Bg(w, Blue)
    ensures BgMagenta(w) == Bg(w, Magenta)
    ensures BgCyan(w) == Bg(w, Cyan)
    ensures BgWhite(w) == Bg(w, White)
    ensures BgBrightBlack(w) == Bg(w, BrightBlack)
    ensures BgBrightRed(w) == Bg(w, BrightRed)
    ensures BgBrightGreen(w) == Bg(w, BrightGreen)
    ensures BgBrightYellow(w) == Bg(w, BrightYellow)
    ensures BgBrightBlue(w) == Bg(w, BrightBlue)
    ensures BgBrightMagenta(w) == Bg(w, BrightMagenta)
    ensures BgBrightCyan(w) == Bg(w, BrightCyan)
    ensures BgBrightWhite(w) == Bg(w, BrightWhite)
    ensures FontBold(w) == Font(w, Bold)
    ensures FontDim(w) == Font(w, Dim)
    ensures FontItalic(w) == Font(w, Italic)
    ensures FontUnderline(w) == Font(w, Underline)
    ensures FontBlink(w) == Font(w, Blink)
    ensures FontReverse(w) == Font(w, Reverse)
    ensures FontHidden(w) == Font(w, Hidden)
    ensures FontStrikethrough(w) == Font(w, Strikethrough)
  {
  }
}
