# clwind: ANSI SGR styling, modelled in Dafny

clwind wraps a string in the ANSI Select Graphic Rendition control sequence
(section 8.3.117 of ECMA-48). A `CLW` value holds a payload and three settings:
an optional foreground colour (`text`), an optional background colour (`bg`),
and a list of text styles (`font`). Rendering collects one SGR parameter string
per setting, in this order: foreground, background, then each style in the
order it was added. If nothing is set, the payload is returned unchanged.
Otherwise the result is `ESC[` + codes joined by `;` + `m` + payload + `ESC[0m`.

The model is pure and functional:

- `optional.dfy`: Rust's `Option` and `unwrap_or`, for the optional colours and
  for parsing.
- `decimal.dfy`: decimal text of naturals (Rust's `{}` formatting) and
  Rust's `str::parse::<u8>`.
- `params.dfy`: SGR parameter strings. `JoinParams` writes a parameter list and
  `DecodeParams` reads one back. `JoinWith` is Rust's `join`.
- `colors.dfy`: `Color` with `ForegroundCode` (`to_ansi_code`) and
  `BackgroundCode` (`to_bg_ansi_code`). `ForegroundParams` and
  `BackgroundParams` give the numeric parameters each code should select.
  The codes are proved to write exactly those parameters.
- `styles.dfy`: `Style` with its declared discriminants and `StyleCode`
  (`to_ansi_code`).
- `builder.dfy`: the `CLW` record (`Clw`) with `new`, `clw`, `text`, `bg`,
  `font` and the 40 convenience setters. Each setter is a function returning
  a new value, matching the source's by-value `self`.
- `rendering.dfy`: `Display::fmt` as `Render`. `ParseRendered` splits a
  rendered string back into its parameters and payload, so the output format
  can be stated as a round trip.

Rust's `u8` and `u32` are the subset types `u8` and `u32`. Shifts are division
by powers of two. `& 0xFF` and `as u8` are `% 256`.

The palette variant is `Color256(u8)`. `Hex` carries a full `u32`, and its
high byte is proved to be ignored (`HexIgnoresHighByte`). A named colour's
background code is computed the way the code computes it: parse the foreground
code as a `u8`, fall back to 30, and add 10.

## Model

| member | source | states |
|---|---|---|
| Optional.UnwrapOr | src/lib.rs:72 | `unwrap_or(30)` yields the parsed value when the parse succeeded and the fallback 30 when it failed |
| Decimal.NatToString | src/lib.rs:49-50 | the `{}` text of an integer is a non-empty run of digits with no leading zero, one digit exactly for values below ten |
| Decimal.DigitsValueOfNatToString | src/lib.rs:49-50 | reading the decimal text of `n` back gives `n` |
| Decimal.NatToStringInjective | src/lib.rs:49-50 | two numbers have the same decimal text if and only if they are equal |
| Decimal.ParseU8 | src/lib.rs:72 | `parse::<u8>` yields only values below 256 and fails on the empty string |
| Decimal.ParseU8OfNatToString | src/lib.rs:72 | `parse::<u8>` of the decimal text of `n` succeeds with `n` exactly when `n` fits in a `u8`, and fails otherwise |
| Params.JoinWith | src/lib.rs:834 | `join` of no codes is empty, of one code is that code, and of more codes starts with the first code followed by the separator |
| Params.JoinParams | src/lib.rs:834 | a `;`-joined parameter string holds only digits and `;`, and is empty exactly when there are no parameters |
| Params.DecodeParams | src/lib.rs:834 | a string that decodes holds only digits and `;` and denotes at least one parameter |
| Params.DecodeJoinParams | src/lib.rs:834 | decoding the `;`-joined decimal text of a non-empty parameter list gives back that list |
| Params.JoinParamsAppend | src/lib.rs:834 | joining a concatenation is joining the two halves with one `;` between them |
| Params.JoinWithGroups | src/lib.rs:834 | `codes.join(";")` of codes that each write a parameter group writes all groups' parameters, in order, as one parameter string |
| Colors.NamedForeground | src/lib.rs:33-48 | a named colour's number is in 90..97 when the colour is bright and in 30..37 when it is not |
| Colors.NamedForegroundInjective | src/lib.rs:33-48 | the sixteen named colours have sixteen different numbers |
| Colors.NamedForegroundCode | src/lib.rs:33-48 | the foreground code of each named colour is the decimal text of 30 or 90 plus its index in black, red, green, yellow, blue, magenta, cyan, white |
| Colors.ForegroundCode | src/lib.rs:31-59 | every foreground code is a non-empty SGR parameter string (digits and `;` only) |
| Colors.ForegroundCodeEncodes | src/lib.rs:31-59 | the foreground code writes the parameters [n] for a named colour, [38,2,r,g,b] for Rgb and Hex, [38,5,i] for Color256 |
| Colors.RgbText | src/lib.rs:49 | the `38;2;{};{};{}` and `48;2;{};{};{}` formats write the parameters [38 or 48, 2, r, g, b] |
| Colors.DecodeForegroundCode | src/lib.rs:31-59 | a terminal decoding the foreground code reads exactly the colour's foreground parameters |
| Colors.BackgroundCode | src/lib.rs:62-74 | every background code is a non-empty SGR parameter string (digits and `;` only) |
| Colors.NamedBackgroundParses | src/lib.rs:72 | for every named colour the foreground code parses as a `u8`, so the `unwrap_or(30)` fallback is never taken, and adding 10 stays below 256 |
| Colors.NamedBackgroundCode | src/lib.rs:72 | a named colour's background code is the decimal text of its foreground number plus ten: 40..47 or 100..107 |
| Colors.BackgroundCodeEncodes | src/lib.rs:62-74 | the background code writes the foreground parameters with the leading one raised by ten (48 for Rgb, Hex and Color256) |
| Colors.DecodeBackgroundCode | src/lib.rs:62-74 | a terminal decoding the background code reads exactly the colour's background parameters |
| Colors.HexRed | src/lib.rs:52 | the red byte is bits 16-23 of `h`: `h mod 2^24` is that byte times 2^16 plus `h mod 2^16` |
| Colors.HexGreen | src/lib.rs:53 | the green byte is bits 8-15 of `h`: `h mod 2^16` is that byte times 2^8 plus `h mod 2^8` |
| Colors.HexBlue | src/lib.rs:54 | the blue byte is bits 0-7 of `h`: `h` minus that byte is a multiple of 256 |
| Colors.HexIsRgb | src/lib.rs:51-71 | `Hex(h)` writes the same foreground and background codes as `Rgb` of bits 16-23, 8-15 and 0-7 of `h` |
| Colors.HexBytesOfPacked | src/lib.rs:51-54 | the shifts and masks recover r, g and b from `0xRRGGBB` packed as r*65536 + g*256 + b |
| Colors.HexOfPackedIsRgb | src/lib.rs:51-71 | `Hex(0xRRGGBB)` and `Rgb(RR, GG, BB)` write identical codes in both positions |
| Colors.HexIgnoresHighByte | src/lib.rs:51-71 | `Hex(h)` and `Hex(h % 2^24)` write identical codes: bits above 23 are silently dropped |
| Colors.HexBytesBelowBit24 | src/lib.rs:51-54 | each of the red, green and blue bytes read from `h` equals the one read from `h % 2^24` |
| Colors.HexExample | src/lib.rs:51-57 | `Hex(0xFF8800)` writes `38;2;255;136;0` and `48;2;255;136;0` |
| Styles.Discriminant | src/lib.rs:79-88 | the declared discriminants are 1..9 without 6 |
| Styles.StyleCode | src/lib.rs:91-103 | every style code is one non-zero decimal digit, so a style never emits the reset parameter |
| Styles.StyleCodeIsDiscriminant | src/lib.rs:79-103 | the string table agrees with the declared discriminants: Bold..Strikethrough give 1,2,3,4,5,7,8,9 |
| Styles.StyleCodeInjective | src/lib.rs:91-103 | two styles have the same code if and only if they are the same style |
| Builder.New | src/lib.rs:128-135 | a new value holds the payload with no foreground, no background and no styles |
| Builder.ClwOf | src/lib.rs:860-862 | `clw` holds the payload with no foreground, no background and no styles |
| Builder.Text | src/lib.rs:152-155 | `text` sets the foreground and changes nothing else |
| Builder.Bg | src/lib.rs:172-175 | `bg` sets the background and changes nothing else |
| Builder.Font | src/lib.rs:192-195 | `font` appends exactly the given style after the existing ones, keeping them and changing nothing else |
| Builder.TextOverwrites | src/lib.rs:152-155 | the last `text` call wins |
| Builder.BgOverwrites | src/lib.rs:172-175 | the last `bg` call wins |
| Builder.TextBgCommute | src/lib.rs:152-175 | setting the foreground and the background commute |
| Builder.FontAccumulates | src/lib.rs:192-195 | two `font` calls append both styles in call order, duplicates kept |
| Builder.SetterContractsDetermine | src/lib.rs:152-195 | the setters' contracts determine their results uniquely, so any function meeting a setter's contract is that setter |
| Builder.ConvenienceSettersAgree | src/lib.rs:208-798 | each of the 40 convenience setters equals `text`, `bg` or `font` applied to its fixed colour or style |
| Builder.TextBlack | src/lib.rs:208-210 | sets the foreground to Black and leaves background, styles and payload unchanged |
| Builder.TextRed | src/lib.rs:223-225 | sets the foreground to Red and leaves background, styles and payload unchanged |
| Builder.TextGreen | src/lib.rs:239-241 | sets the foreground to Green and leaves background, styles and payload unchanged |
| Builder.TextYellow | src/lib.rs:254-256 | sets the foreground to Yellow and leaves background, styles and payload unchanged |
| Builder.TextBlue | src/lib.rs:269-271 | sets the foreground to Blue and leaves background, styles and payload unchanged |
| Builder.TextMagenta | src/lib.rs:284-286 | sets the foreground to Magenta and leaves background, styles and payload unchanged |
| Builder.TextCyan | src/lib.rs:299-301 | sets the foreground to Cyan and leaves background, styles and payload unchanged |
| Builder.TextWhite | src/lib.rs:314-316 | sets the foreground to White and leaves background, styles and payload unchanged |
| Builder.TextBrightBlack | src/lib.rs:329-331 | sets the foreground to BrightBlack and leaves background, styles and payload unchanged |
| Builder.TextBrightRed | src/lib.rs:344-346 | sets the foreground to BrightRed and leaves background, styles and payload unchanged |
| Builder.TextBrightGreen | src/lib.rs:359-361 | sets the foreground to BrightGreen and leaves background, styles and payload unchanged |
| Builder.TextBrightYellow | src/lib.rs:374-376 | sets the foreground to BrightYellow and leaves background, styles and payload unchanged |
| Builder.TextBrightBlue | src/lib.rs:389-391 | sets the foreground to BrightBlue and leaves background, styles and payload unchanged |
| Builder.TextBrightMagenta | src/lib.rs:404-406 | sets the foreground to BrightMagenta and leaves background, styles and payload unchanged |
| Builder.TextBrightCyan | src/lib.rs:419-421 | sets the foreground to BrightCyan and leaves background, styles and payload unchanged |
| Builder.TextBrightWhite | src/lib.rs:434-436 | sets the foreground to BrightWhite and leaves background, styles and payload unchanged |
| Builder.BgBlack | src/lib.rs:449-451 | sets the background to Black and leaves foreground, styles and payload unchanged |
| Builder.BgRed | src/lib.rs:464-466 | sets the background to Red and leaves foreground, styles and payload unchanged |
| Builder.BgGreen | src/lib.rs:479-481 | sets the background to Green and leaves foreground, styles and payload unchanged |
| Builder.BgYellow | src/lib.rs:494-496 | sets the background to Yellow and leaves foreground, styles and payload unchanged |
| Builder.BgBlue | src/lib.rs:509-511 | sets the background to Blue and leaves foreground, styles and payload unchanged |
| Builder.BgMagenta | src/lib.rs:524-526 | sets the background to Magenta and leaves foreground, styles and payload unchanged |
| Builder.BgCyan | src/lib.rs:539-541 | sets the background to Cyan and leaves foreground, styles and payload unchanged |
| Builder.BgWhite | src/lib.rs:554-556 | sets the background to White and leaves foreground, styles and payload unchanged |
| Builder.BgBrightBlack | src/lib.rs:569-571 | sets the background to BrightBlack and leaves foreground, styles and payload unchanged |
| Builder.BgBrightRed | src/lib.rs:584-586 | sets the background to BrightRed and leaves foreground, styles and payload unchanged |
| Builder.BgBrightGreen | src/lib.rs:599-601 | sets the background to BrightGreen and leaves foreground, styles and payload unchanged |
| Builder.BgBrightYellow | src/lib.rs:614-616 | sets the background to BrightYellow and leaves foreground, styles and payload unchanged |
| Builder.BgBrightBlue | src/lib.rs:629-631 | sets the background to BrightBlue and leaves foreground, styles and payload unchanged |
| Builder.BgBrightMagenta | src/lib.rs:644-646 | sets the background to BrightMagenta and leaves foreground, styles and payload unchanged |
| Builder.BgBrightCyan | src/lib.rs:659-661 | sets the background to BrightCyan and leaves foreground, styles and payload unchanged |
| Builder.BgBrightWhite | src/lib.rs:674-676 | sets the background to BrightWhite and leaves foreground, styles and payload unchanged |
| Builder.FontBold | src/lib.rs:689-691 | appends Bold after the existing styles and changes nothing else |
| Builder.FontDim | src/lib.rs:704-706 | appends Dim after the existing styles and changes nothing else |
| Builder.FontItalic | src/lib.rs:719-721 | appends Italic after the existing styles and changes nothing else |
| Builder.FontUnderline | src/lib.rs:734-736 | appends Underline after the existing styles and changes nothing else |
| Builder.FontBlink | src/lib.rs:749-751 | appends Blink after the existing styles and changes nothing else |
| Builder.FontReverse | src/lib.rs:766-768 | appends Reverse after the existing styles and changes nothing else |
| Builder.FontHidden | src/lib.rs:781-783 | appends Hidden after the existing styles and changes nothing else |
| Builder.FontStrikethrough | src/lib.rs:796-798 | appends Strikethrough after the existing styles and changes nothing else |
| Rendering.Codes | src/lib.rs:819-830 | the collected code list is empty exactly when no foreground, background or style is set |
| Rendering.Render | src/lib.rs:818-836 | the rendering equals the payload exactly when nothing is set, and is never shorter than the payload |
| Rendering.CodesWriteGroups | src/lib.rs:819-830 | each collected code writes its own parameter group (foreground, background, one per style), and the groups together are the value's parameters |
| Rendering.JoinedCodesEncodeParams | src/lib.rs:834 | the `;`-joined codes are the decimal text of the foreground, background and style parameters in that order |
| Rendering.ParseWrapped | src/lib.rs:834 | the output shape `ESC[` + parameter string + `m` + payload + `ESC[0m` reads back as those parameters and that payload, whatever the payload holds |
| Rendering.RenderRoundTrip | src/lib.rs:818-836 | a styled value renders as `ESC[` + its parameters + `m` + the payload verbatim + `ESC[0m`; decoding recovers the parameters and the payload |
| Rendering.RenderShape | src/lib.rs:832-834 | a styled value renders as exactly `ESC[`, the canonical decimal text of its parameters joined by `;`, `m`, the payload and `ESC[0m` |
| Rendering.FontAppendsParam | src/lib.rs:828-830 | adding a style adds exactly its parameter after every earlier one |
| Rendering.ForegroundLeads | src/lib.rs:820-826 | the foreground's parameters come first whatever else is set |
| Rendering.RenderNew | src/lib.rs:832-833 | a value fresh from `new` or `clw` renders as its payload unchanged |
| Rendering.ChainedExample | src/lib.rs:852-856 | the documented chain `bg_bright_black`, `text_cyan`, `font_bold`, `font_blink` renders `ESC[36;100;1;5mStyledESC[0m` |

## Left out

- `print`, `println`, `eprint`, `eprintln` (src/lib.rs:800-814): they only write `Render`'s result to standard output or standard error.
- The `println!` of the three bytes in the Hex foreground branch (src/lib.rs:55): an I/O side effect. `ForegroundCode` is pure and returns what that branch returns.
- The `fmt::Formatter` / `write!` plumbing and its `fmt::Result`: `Render` returns the string that would be written.
- The generic `Into<String>` argument of `new`: `New` takes a `string` directly.
- Colors.BackgroundCode: adds 10 on unbounded integers, not with Rust's `u8` `+`. `NamedBackgroundParses` proves the sum is at most 107, so that `u8` addition can neither overflow nor panic.
- Strings are sequences of Unicode scalar values, not UTF-8 bytes. The payload is copied verbatim either way.
