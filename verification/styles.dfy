/** Text attributes and their SGR parameters (`Style::to_ansi_code` in src/lib.rs). */
module Styles {
  import opened Decimal

  datatype Style = Bold | Dim | Italic | Underline | Blink | Reverse | Hidden | Strikethrough

  /** The explicit discriminant each variant is declared with (`Bold = 1`, ...). */
  function Discriminant(s: Style): (n: nat)
    ensures 1 <= n <= 9 && n != 6
  {
    match s
    case Bold => 1
    case Dim => 2
    case Italic => 3
    case Underline => 4
    case Blink => 5
    case Reverse => 7
    case Hidden => 8
    case Strikethrough => 9
  }

  /** `Style::to_ansi_code`: a single decimal digit, never the reset `0`. */
  function StyleCode(s: Style): (code: string)
    ensures |code| == 1 && IsDigit(code[0]) && code[0] != '0'
  {
    match s
    case Bold => "1"
    case Dim => "2"
    case Italic => "3"
    case Underline => "4"
    case Blink => "5"
    case Reverse => "7"
    case Hidden => "8"
    case Strikethrough => "9"
  }

  /** The code table agrees with the declared discriminants. */
  lemma StyleCodeIsDiscriminant(s: Style)
    ensures StyleCode(s) == NatToString(Discriminant(s))
  {
  }

  /** Different attributes have different codes. */
  lemma StyleCodeInjective(a: Style, b: Style)
    ensures StyleCode(a) == StyleCode(b) <==> a == b
  {
  }
}
